/** Tokens of the SQL scanner and the tests the folder makes on a single token. */
module Tokens {
  import opened Bytes

  const KEYWORD: byte := 'k'
  const UNION: byte := 'U'
  const GROUP: byte := 'B'
  const EXPRESSION: byte := 'E'
  const SQLTYPE: byte := 't'
  const FUNCTION: byte := 'f'
  const BAREWORD: byte := 'n'
  const NUMBER: byte := '1'
  const VARIABLE: byte := 'v'
  const STRING: byte := 's'
  const OPERATOR: byte := 'o'
  const LOGIC_OPERATOR: byte := '&'
  const COMMENT: byte := 'c'
  const COLLATE: byte := 'A'
  const LEFTPARENS: byte := '('
  const RIGHTPARENS: byte := ')'
  const LEFTBRACE: byte := '{'
  const RIGHTBRACE: byte := '}'
  const DOT: byte := '.'
  const COMMA: byte := ','
  const COLON: byte := ':'
  const SEMICOLON: byte := ';'
  const TSQL: byte := 'T'
  const UNKNOWN: byte := '?'
  const EVIL: byte := 'X'
  const FINGERPRINT: byte := 'F'
  const BACKSLASH: byte := '\\'

  /** Size of the value buffer of a token, terminator included. */
  const TOKEN_SIZE: nat := 32

  /** The most tokens a fingerprint holds. */
  const MAX_TOKENS: nat := 5

  /** Text as it fits a token's buffer. */
  function Cut(text: bytes): (v: bytes)
    ensures |v| < TOKEN_SIZE && v <= text
  {
    if |text| < TOKEN_SIZE then text else text[..TOKEN_SIZE - 1]
  }

  /** Type and value of a token. */
  datatype Lexeme = Lexeme(typ: byte, val: bytes) {
    /** `cstrcasecmp(word, val, len) == 0`. */
    predicate Named(word: string) { Upper(val) == word }

    predicate IsArithmeticOp() {
      && typ == OPERATOR && |val| == 1
      && (val[0] == '*' || val[0] == '/' || val[0] == '-' || val[0] == '+' || val[0] == '%')
    }

    predicate IsUnaryOp() {
      && typ == OPERATOR
      && (match |val|
          case 1 => val[0] == '+' || val[0] == '-' || val[0] == '!' || val[0] == '~'
          case 2 => val[0] == '!' && val[1] == '!'
          case 3 => Named("NOT")
          case _ => false)
    }

    /** `strchr(val, '_') != NULL`. */
    predicate HasUnderscore() { '_' in CStr(val) }
  }

  /** A token. The program's `len` field always equals |val| and is not stored twice. */
  datatype Token = Token(pos: nat, count: nat, typ: byte, strOpen: byte, strClose: byte, val: bytes) {
    /** The position `d` bytes further on. */
    function Moved(d: nat): Token { this.(pos := pos + d) }

    /** `st_assign`: type, position and value, the value cut to the buffer. */
    function Assign(typ: byte, pos: nat, text: bytes): Token {
      this.(typ := typ, pos := pos, val := Cut(text))
    }

    /** Byte i of the value buffer; the terminator and the zeroes after it read as NUL. */
    function ValAt(i: nat): byte { if i < |val| then val[i] else NUL }

    /** What the folder looks at. */
    function Lex(): Lexeme { Lexeme(typ, val) }
  }

  /** A zeroed token. */
  const CLEAR := Token(0, 0, NUL, NUL, NUL, [])

  /** The two lookups the scanners make. */
  datatype LookupKind = WordLookup | OperatorLookup

  /** A dictionary: the type of a word, or NUL when it is not special. */
  type Lookup = (LookupKind, bytes) -> byte

  /** The bits of the flag word. */
  datatype Flags = Flags(quoteNone: bool, quoteSingle: bool, quoteDouble: bool, ansi: bool, mysql: bool) {
    predicate Quoted() { quoteSingle || quoteDouble }

    /** `flag2delim`. */
    function Delim(): byte {
      if quoteSingle then '\'' else if quoteDouble then '"' else NUL
    }

    /** A zero flag word stands for the default context. */
    function OrDefault(): Flags {
      if this == Flags(false, false, false, false, false) then NONE_ANSI else this
    }
  }

  const NONE_ANSI := Flags(true, false, false, true, false)
  const NONE_MYSQL := Flags(true, false, false, false, true)
  const SINGLE_ANSI := Flags(false, true, false, true, false)
  const SINGLE_MYSQL := Flags(false, true, false, false, true)
  const DOUBLE_MYSQL := Flags(false, false, true, false, true)
}
