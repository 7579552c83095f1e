/** What each scanner recognises, as a function of the input from the current byte on.
    No scanner but the one for `$tag$` strings sees anything before the current byte;
    positions in a result count from the current byte. */
module Scanners {
  import opened Bytes
  import opened Tokens

  /** One scanner call: bytes consumed, the token (CLEAR for white space), and what was
      added to the two comment counters. */
  datatype Scan = Scan(len: nat, tok: Token, ddx: nat, hash: nat)

  const WORD_STOPS := " []{}<>:\\?=@!#~+-*/&|^%(),';\t\n\U{0B}\U{0C}\r\"\U{A0}"
  const VAR_STOPS := " <>:\\?=@!#~+-*/&|^%(),';\t\n\U{0B}\U{0C}\r'`\""
  const BINARY_DIGITS := "01"
  const HEX_DIGITS := "0123456789ABCDEFabcdef"
  const MONEY_CHARS := "0123456789.,"
  const LETTERS := "abcdefghjiklmnopqrstuvwxyz" + "ABCDEFGHIJKLMNOPQRSTUVWXYZ"

  function Plain(len: nat, typ: byte, at: nat, text: bytes): Scan {
    Scan(len, CLEAR.Assign(typ, at, text), 0, 0)
  }

  /** A quoted string token. */
  function Quoted(len: nat, at: nat, text: bytes, open: byte, close: byte): Scan {
    Scan(len, CLEAR.Assign(STRING, at, text).(strOpen := open, strClose := close), 0, 0)
  }

  function White(): Scan { Scan(1, CLEAR, 0, 0) }

  /** `st_assign_char`: a one-byte token. */
  function One(typ: byte, c: byte): Scan { Plain(1, typ, 0, [c]) }

  function EolComment(r: bytes): Scan {
    var n := IndexOf(r, '\n');
    Plain(if n == |r| then n else n + 1, COMMENT, 0, r[..n])
  }

  function Hash(r: bytes, flags: Flags): Scan {
    if flags.mysql then EolComment(r).(hash := 2) else One(OPERATOR, '#').(hash := 1)
  }

  function Dash(r: bytes, flags: Flags): Scan {
    if |r| > 2 && r[1] == '-' && IsWhite(r[2]) then EolComment(r)
    else if |r| == 2 && r[1] == '-' then EolComment(r)
    else if |r| > 1 && r[1] == '-' && flags.ansi then EolComment(r).(ddx := 1)
    else One(OPERATOR, '-')
  }

  /** Comments with a comment inside, and MySQL conditional comments, are evil. */
  function Slash(r: bytes): Scan
    requires r != []
  {
    if |r| == 1 || r[1] != '*' then One(OPERATOR, r[0])
    else
      var body := r[2..];
      var end := IndexOf2(body, '*', '/');
      var len := if end == |body| then |r| else end + 4;
      var nested := end < |body| && IndexOf2(body[..end + 1], '/', '*') <= end;
      var conditional := |r| > 2 && r[2] == '!';
      Plain(len, if nested || conditional then EVIL else COMMENT, 0, r[..len])
  }

  function Backslash(r: bytes): Scan
    requires r != []
  {
    if |r| > 1 && r[1] == 'N' then Plain(2, NUMBER, 0, r[..2]) else One(BACKSLASH, r[0])
  }

  function Operator2(r: bytes, lookup: Lookup): Scan
    requires r != []
  {
    if |r| == 1 then One(OPERATOR, r[0])
    else if |r| > 2 && r[0] == '<' && r[1] == '=' && r[2] == '>' then Plain(3, OPERATOR, 0, r[..3])
    else
      var ch := lookup(OperatorLookup, r[..2]);
      if ch != NUL then Plain(2, ch, 0, r[..2])
      else if r[0] == ':' then One(COLON, r[0])
      else One(OPERATOR, r[0])
  }

  /** The closing quote of a string body, read once from the left: a backslash takes the
      next byte with it, and a doubled quote stands for a quote. |body| if never closed. */
  function ClosingQuote(body: bytes, delim: byte): (i: nat)
    ensures i <= |body|
    ensures i < |body| ==> body[i] == delim
    decreases |body|
  {
    if body == [] then 0
    else if body[0] == '\\' then
      if |body| == 1 then 1 else 2 + ClosingQuote(body[2..], delim)
    else if body[0] != delim then 1 + ClosingQuote(body[1..], delim)
    else if |body| > 1 && body[1] == delim then 2 + ClosingQuote(body[2..], delim)
    else 0
  }

  /** A string whose body starts at `offset`; offset 0 is the simulated opening quote. */
  function StringCore(r: bytes, delim: byte, offset: nat): Scan
    requires offset <= |r|
  {
    var body := r[offset..];
    var i := ClosingQuote(body, delim);
    var open := if offset > 0 then delim else NUL;
    if i == |body| then Quoted(|r|, offset, body, open, NUL)
    else Quoted(offset + i + 1, offset, body[..i], open, delim)
  }

  predicate IsSplit(val: bytes, lookup: Lookup, i: nat)
    requires i < |val|
  {
    && (val[i] == '.' || val[i] == '`')
    && lookup(WordLookup, val[..i]) != NUL && lookup(WordLookup, val[..i]) != BAREWORD
  }

  /** The first '.' or '`' of a word whose text before it is special, or |val|. */
  function SplitAt(val: bytes, lookup: Lookup, from: nat): (i: nat)
    requires from <= |val|
    ensures from <= i <= |val|
    ensures i < |val| ==> IsSplit(val, lookup, i)
    decreases |val| - from
  {
    if from == |val| || IsSplit(val, lookup, from) then from else SplitAt(val, lookup, from + 1)
  }

  function Word(r: bytes, lookup: Lookup): Scan {
    var len := SpanNot(r, WORD_STOPS);
    var val := Cut(r[..len]);
    var i := SplitAt(val, lookup, 0);
    if i < |val| then Plain(i, lookup(WordLookup, val[..i]), 0, r[..i])
    else
      var ch := if len < TOKEN_SIZE then lookup(WordLookup, val) else NUL;
      Plain(len, if ch == NUL then BAREWORD else ch, 0, r[..len])
  }

  function EString(r: bytes, lookup: Lookup): Scan
    requires r != []
  {
    if |r| <= 2 || r[1] != '\'' then Word(r, lookup) else StringCore(r, '\'', 2)
  }

  function UString(r: bytes, lookup: Lookup): Scan
    requires r != []
  {
    if |r| > 2 && r[1] == '&' && r[2] == '\'' then
      var sc := StringCore(r[2..], '\'', 1);
      Scan(2 + sc.len,
           sc.tok.Moved(2).(strOpen := 'u', strClose := if sc.tok.strClose == '\'' then 'u' else sc.tok.strClose),
           0, 0)
    else Word(r, lookup)
  }

  /** The closing bracket of an Oracle q-string opened by ch. */
  function QClose(ch: byte): byte {
    match ch
    case '(' => ')'
    case '[' => ']'
    case '{' => '}'
    case '<' => '>'
    case _ => ch
  }

  function QStringCore(r: bytes, offset: nat, lookup: Lookup): Scan
    requires r != [] && offset <= 1
  {
    var q := r[offset..];
    if |q| <= 2 || (q[0] != 'q' && q[0] != 'Q') || q[1] != '\'' || Signed(q[2]) < 33 then Word(r, lookup)
    else
      var body := q[3..];
      var end := IndexOf2(body, QClose(q[2]), '\'');
      if end == |body| then Quoted(|r|, offset + 3, body, 'q', NUL)
      else Quoted(offset + 3 + end + 2, offset + 3, body[..end], 'q', 'q')
  }

  function NqString(r: bytes, lookup: Lookup): Scan
    requires r != []
  {
    if |r| > 2 && r[1] == '\'' then EString(r, lookup) else QStringCore(r, 1, lookup)
  }

  /** `b'0101'` and `x'0aF'`: a quoted run of the given digits. */
  function DigitString(r: bytes, digits: string, lookup: Lookup): Scan
    requires r != []
  {
    if |r| <= 2 || r[1] != '\'' then Word(r, lookup)
    else
      var n := Span(r[2..], digits);
      if 2 + n == |r| || r[2 + n] != '\'' then Word(r, lookup)
      else Plain(n + 3, NUMBER, 0, r[..n + 3])
  }

  function BWord(r: bytes): Scan {
    var n := IndexOf(r, ']');
    var len := if n == |r| then n else n + 1;
    Plain(len, BAREWORD, 0, r[..len])
  }

  function Tick(r: bytes, lookup: Lookup): Scan
    requires r != []
  {
    var sc := StringCore(r, '`', 1);
    sc.(tok := sc.tok.(typ := if lookup(WordLookup, sc.tok.val) == FUNCTION then FUNCTION else BAREWORD))
  }

  function Var(r: bytes, lookup: Lookup): Scan
    requires r != []
  {
    var d := if |r| > 1 && r[1] == '@' then 2 else 1;
    var v := r[d..];
    if v != [] && (v[0] == '`' || v[0] == '\'' || v[0] == '"') then
      var sc := if v[0] == '`' then Tick(v, lookup) else StringCore(v, v[0], 1);
      // parse_string and parse_tick keep the count already stored in the token
      Scan(d + sc.len, sc.tok.Moved(d).(typ := VARIABLE, count := d), 0, 0)
    else
      var n := SpanNot(v, VAR_STOPS);
      Scan(d + n, CLEAR.Assign(VARIABLE, d, v[..n]).(count := d), 0, 0)
  }

  /** r opens a dollar-quoted string with a tag: `$letters$`. */
  predicate OpensTag(r: bytes)
  {
    && |r| > 1 && r[0] == '$'
    && Span(r[1..], MONEY_CHARS) == 0 && r[1] != '$'
    && var n := Span(r[1..], LETTERS);
       n > 0 && n + 1 < |r| && r[n + 1] == '$'
  }

  /** Everything a dollar sign can start except a tagged string. */
  function Money(r: bytes, lookup: Lookup): Scan
    requires r != []
  {
    if |r| == 1 then One(BAREWORD, '$')
    else
      var n := Span(r[1..], MONEY_CHARS);
      if n == 0 then
        if r[1] == '$' then
          var body := r[2..];
          var end := IndexOf2(body, '$', '$');
          if end == |body| then Quoted(|r|, 2, body, '$', NUL)
          else Quoted(end + 4, 2, body[..end], '$', '$')
        else One(BAREWORD, '$')
      else if n == 1 && r[1] == '.' then Word(r, lookup)
      else Plain(1 + n, NUMBER, 0, r[..1 + n])
  }

  /** Length of the tag a tagged string opens with. */
  function TagLength(r: bytes): (t: nat)
    requires OpensTag(r)
    ensures 3 <= t <= |r|
  {
    Span(r[1..], LETTERS) + 2
  }

  /** Where the program finds the closing tag of the tagged string at p, |s| + 1 if nowhere.
      It searches from the fixed index t, p bytes short of the end of the input, and gives up
      if the first match is not behind the opening tag. */
  function TagClose(s: bytes, p: nat): (at: nat)
    requires p <= |s| && OpensTag(s[p..])
    ensures at <= |s| + 1
    ensures at <= |s| ==> p + TagLength(s[p..]) <= at && at + TagLength(s[p..]) <= |s|
  {
    var t := TagLength(s[p..]);
    var at := FirstAt(s[p..][..t], s[..|s| - p], t);
    if |s| - p < at || at < p + t then |s| + 1 else at
  }

  /** A tagged string at p. The whole input matters, not only what follows p. */
  function MoneyTag(s: bytes, p: nat): Scan
    requires p <= |s| && OpensTag(s[p..])
  {
    var r := s[p..];
    var t := TagLength(r);
    var at := TagClose(s, p);
    if at > |s| then Quoted(|r|, t, r[t..], '$', NUL)
    else Quoted(at + t - p, t, s[p + t..at], '$', '$')
  }

  /** The digits to use after a leading 0x or 0b, "" for an ordinary number. */
  function RadixDigits(r: bytes): string
    requires r != []
  {
    if r[0] == '0' && |r| > 1 then
      if r[1] == 'X' || r[1] == 'x' then HEX_DIGITS
      else if r[1] == 'B' || r[1] == 'b' then BINARY_DIGITS
      else ""
    else ""
  }

  /** End of digits [ '.' digits ] . */
  function Mantissa(r: bytes): (n: nat)
    ensures n <= |r|
  {
    var n := Digits(r);
    if n < |r| && r[n] == '.' then n + 1 + Digits(r[n + 1..]) else n
  }

  /** End of an exponent starting at the 'e' found at n: the sign is optional. */
  function ExponentDigits(r: bytes, n: nat): (m: nat)
    requires n < |r|
    ensures n < m <= |r|
  {
    if n + 1 < |r| && (r[n + 1] == '+' || r[n + 1] == '-') then n + 2 else n + 1
  }

  predicate IsFloatSuffix(c: byte) { c == 'd' || c == 'D' || c == 'f' || c == 'F' }

  /** End of a number whose last digit is before n, with Oracle's type suffix if present. */
  function WithSuffix(r: bytes, n: nat): (m: nat)
    requires n <= |r|
    ensures n <= m <= |r|
  {
    if n < |r| && IsFloatSuffix(r[n])
       && (n + 1 == |r| || IsWhite(r[n + 1]) || r[n + 1] == ';' || r[n + 1] == 'u' || r[n + 1] == 'U')
    then n + 1 else n
  }

  function Number(r: bytes): Scan
    requires r != []
  {
    var radix := RadixDigits(r);
    if radix != "" then
      var n := Span(r[2..], radix);
      if n == 0 then Plain(2, BAREWORD, 0, r[..2]) else Plain(2 + n, NUMBER, 0, r[..2 + n])
    else
      var n := Mantissa(r);
      if n == 1 && r[0] == '.' then One(DOT, '.')
      else if n < |r| && (r[n] == 'E' || r[n] == 'e') then
        var e := ExponentDigits(r, n);
        var m := e + Digits(r[e..]);
        var end := WithSuffix(r, m);
        Plain(end, if m == e then BAREWORD else NUMBER, 0, r[..end])
      else
        var end := WithSuffix(r, n);
        Plain(end, NUMBER, 0, r[..end])
  }

  /** The scanners a byte can be dispatched to. */
  datatype Parser =
    | ParseWhite | ParseOperator1 | ParseOperator2 | ParseOther | ParseChar | ParseHash | ParseDash
    | ParseSlash | ParseBackslash | ParseString | ParseEString | ParseUString | ParseQString
    | ParseNqString | ParseBString | ParseXString | ParseBWord | ParseWord | ParseTick | ParseVar
    | ParseMoney | ParseNumber

  /** `char_parse_map`. */
  function CharParseMap(ch: byte): Parser {
    if ch <= ' ' || ch == '\U{7F}' || ch == '\U{A0}' then ParseWhite
    else if ch as int >= 128 then ParseWord
    else match ch
      case '!' | '&' | '*' | ':' | '<' | '=' | '>' | '|' => ParseOperator2
      case '"' | '\'' => ParseString
      case '#' => ParseHash
      case '$' => ParseMoney
      case '%' | '+' | '^' | '~' => ParseOperator1
      case '(' | ')' | ',' | ';' | '{' | '}' => ParseChar
      case '-' => ParseDash
      case '.' => ParseNumber
      case '/' => ParseSlash
      case '?' | ']' => ParseOther
      case '@' => ParseVar
      case 'B' | 'b' => ParseBString
      case 'E' | 'e' => ParseEString
      case 'N' | 'n' => ParseNqString
      case 'Q' | 'q' => ParseQString
      case 'U' | 'u' => ParseUString
      case 'X' | 'x' => ParseXString
      case '[' => ParseBWord
      case '\\' => ParseBackslash
      case '`' => ParseTick
      case _ => if IsDigit(ch) then ParseNumber else ParseWord
  }

  /** One scanner call on input r in the given dialect; tagged strings excepted. */
  function ScanHere(r: bytes, flags: Flags, lookup: Lookup): Scan
    requires r != []
  {
    match CharParseMap(r[0])
    case ParseWhite => White()
    case ParseOperator1 => One(OPERATOR, r[0])
    case ParseOperator2 => Operator2(r, lookup)
    case ParseOther => One(UNKNOWN, r[0])
    case ParseChar => One(r[0], r[0])
    case ParseHash => Hash(r, flags)
    case ParseDash => Dash(r, flags)
    case ParseSlash => Slash(r)
    case ParseBackslash => Backslash(r)
    case ParseString => StringCore(r, r[0], 1)
    case ParseEString => EString(r, lookup)
    case ParseUString => UString(r, lookup)
    case ParseQString => QStringCore(r, 0, lookup)
    case ParseNqString => NqString(r, lookup)
    case ParseBString => DigitString(r, BINARY_DIGITS, lookup)
    case ParseXString => DigitString(r, HEX_DIGITS, lookup)
    case ParseBWord => BWord(r)
    case ParseWord => Word(r, lookup)
    case ParseTick => Tick(r, lookup)
    case ParseVar => Var(r, lookup)
    case ParseMoney => Money(r, lookup)
    case ParseNumber => Number(r)
  }

  /** The scanner call at position p of s. */
  function ScanAt(s: bytes, p: nat, flags: Flags, lookup: Lookup): Scan
    requires p < |s|
  {
    if OpensTag(s[p..]) then MoneyTag(s, p) else ScanHere(s[p..], flags, lookup)
  }
}
