/** The folding rules: what the folder decides from the types and values of the tokens
    under its cursor. A ruling never depends on where a token stands in the input. */
module FoldRules {
  import opened Bytes
  import opened Tokens

  /** A change to the two or three tokens under the cursor. */
  datatype Edit =
    | Leave
    | RetypeLeft(typ: byte)
    | RetypeRight(typ: byte)
    | RightOntoLeft
    | ThirdOntoSecond
    | Merge(typ: byte, val: bytes)

  /** What happens to `left`: nothing, one step back if possible, or back to 0. */
  datatype Retreat = Stay | Back | Restart

  /** Again: look at the window anew. GoOn: fall through to the next stage. Abort: give up. */
  datatype Control = Again | GoOn | Abort

  /** The outcome of a rule: edit the window, drop the last `drop` held tokens, count
      `folds`, move `left`. */
  datatype Ruling = Ruling(edit: Edit, drop: nat, folds: nat, retreat: Retreat, control: Control)

  function Drop(n: nat, folds: nat, retreat: Retreat): Ruling { Ruling(Leave, n, folds, retreat, Again) }

  const NO_RULE := Ruling(Leave, 0, 0, Stay, GoOn)

  predicate StartsPhrase(t: byte) {
    t == KEYWORD || t == BAREWORD || t == OPERATOR || t == UNION || t == FUNCTION
    || t == EXPRESSION || t == TSQL || t == SQLTYPE
  }

  function Phrase(a: Lexeme, b: Lexeme): bytes { a.val + [' '] + b.val }

  /** `syntax_merge_words`: the type of the two words as one phrase, NUL if they are none. */
  function PhraseType(lookup: Lookup, a: Lexeme, b: Lexeme): byte {
    if StartsPhrase(a.typ) && (StartsPhrase(b.typ) || b.typ == LOGIC_OPERATOR)
       && |Phrase(a, b)| < TOKEN_SIZE
    then lookup(WordLookup, Phrase(a, b)) else NUL
  }

  /** Words that are columns or variables unless a parenthesis follows. */
  predicate MayBeFunction(a: Lexeme) {
    a.Named("USER_ID") || a.Named("USER_NAME") || a.Named("DATABASE") || a.Named("PASSWORD")
    || a.Named("USER") || a.Named("CURRENT_USER") || a.Named("CURRENT_DATE") || a.Named("CURRENT_TIME")
    || a.Named("CURRENT_TIMESTAMP") || a.Named("LOCALTIME") || a.Named("LOCALTIMESTAMP")
  }

  /** Rules on the two tokens at `left`. Value bytes past the end read as NUL. */
  function PairRule(lookup: Lookup, a: Lexeme, b: Lexeme): Ruling {
    if a.typ == STRING && b.typ == STRING then Drop(1, 1, Stay)
    else if a.typ == SEMICOLON && b.typ == SEMICOLON then Drop(1, 1, Stay)
    else if (a.typ == OPERATOR || a.typ == LOGIC_OPERATOR) && (b.IsUnaryOp() || b.typ == SQLTYPE) then
      Drop(1, 1, Restart)
    else if a.typ == LEFTPARENS && b.IsUnaryOp() then Drop(1, 1, Back)
    else if PhraseType(lookup, a, b) != NUL then
      Ruling(Merge(PhraseType(lookup, a, b), Phrase(a, b)), 1, 1, Back, Again)
    else if a.typ == SEMICOLON && b.typ == FUNCTION && |b.val| >= 2
            && (b.val[0] == 'I' || b.val[0] == 'i') && (b.val[1] == 'F' || b.val[1] == 'f') then
      Ruling(RetypeRight(TSQL), 0, 0, Stay, Again)
    else if (a.typ == BAREWORD || a.typ == VARIABLE) && b.typ == LEFTPARENS && MayBeFunction(a) then
      Ruling(RetypeLeft(FUNCTION), 0, 0, Stay, Again)
    else if a.typ == KEYWORD && (a.Named("IN") || a.Named("NOT IN")) then
      Ruling(RetypeLeft(if b.typ == LEFTPARENS then OPERATOR else BAREWORD), 0, 0, Stay, Again)
    else if a.typ == OPERATOR && (a.Named("LIKE") || a.Named("NOT LIKE")) then
      if b.typ == LEFTPARENS then Ruling(RetypeLeft(FUNCTION), 0, 0, Stay, GoOn) else NO_RULE
    else if a.typ == SQLTYPE
            && (b.typ == BAREWORD || b.typ == NUMBER || b.typ == SQLTYPE || b.typ == LEFTPARENS
                || b.typ == FUNCTION || b.typ == VARIABLE || b.typ == STRING) then
      Ruling(RightOntoLeft, 1, 1, Restart, Again)
    else if a.typ == COLLATE && b.typ == BAREWORD then
      if b.HasUnderscore() then Ruling(RetypeRight(SQLTYPE), 0, 0, Restart, GoOn) else NO_RULE
    else if a.typ == BACKSLASH then
      if b.IsArithmeticOp() then Ruling(RetypeLeft(NUMBER), 0, 0, Restart, Again)
      else Ruling(RightOntoLeft, 1, 1, Restart, Again)
    else if a.typ == LEFTPARENS && b.typ == LEFTPARENS then Drop(1, 1, Restart)
    else if a.typ == RIGHTPARENS && b.typ == RIGHTPARENS then Drop(1, 1, Restart)
    else if a.typ == LEFTBRACE && b.typ == BAREWORD then
      if b.val == [] then Ruling(RetypeRight(EVIL), 0, 0, Stay, Abort) else Drop(2, 2, Restart)
    else if b.typ == RIGHTBRACE then Drop(1, 1, Restart)
    else NO_RULE
  }

  /** Rules on the three tokens at `left`. */
  function TripleRule(a: Lexeme, b: Lexeme, c: Lexeme): Ruling {
    if a.typ == NUMBER && b.typ == OPERATOR && c.typ == NUMBER then Drop(2, 0, Restart)
    else if a.typ == OPERATOR && b.typ != LEFTPARENS && c.typ == OPERATOR then Drop(2, 0, Restart)
    else if a.typ == LOGIC_OPERATOR && c.typ == LOGIC_OPERATOR then Drop(2, 0, Restart)
    else if a.typ == VARIABLE && b.typ == OPERATOR
            && (c.typ == VARIABLE || c.typ == NUMBER || c.typ == BAREWORD) then Drop(2, 0, Restart)
    else if (a.typ == BAREWORD || a.typ == NUMBER) && b.typ == OPERATOR
            && (c.typ == NUMBER || c.typ == BAREWORD) then Drop(2, 0, Restart)
    else if (a.typ == BAREWORD || a.typ == NUMBER || a.typ == VARIABLE || a.typ == STRING)
            && b.typ == OPERATOR && CStr(b.val) == "::" && c.typ == SQLTYPE then Drop(2, 2, Restart)
    else if (a.typ == BAREWORD || a.typ == NUMBER || a.typ == STRING || a.typ == VARIABLE) && b.typ == COMMA
            && (c.typ == NUMBER || c.typ == BAREWORD || c.typ == STRING || c.typ == VARIABLE) then
      Drop(2, 0, Restart)
    else if (a.typ == EXPRESSION || a.typ == GROUP || a.typ == COMMA) && b.IsUnaryOp()
            && c.typ == LEFTPARENS then Ruling(ThirdOntoSecond, 1, 0, Restart, Again)
    else if (a.typ == KEYWORD || a.typ == EXPRESSION || a.typ == GROUP) && b.IsUnaryOp()
            && (c.typ == NUMBER || c.typ == BAREWORD || c.typ == VARIABLE || c.typ == STRING
                || c.typ == FUNCTION) then Ruling(ThirdOntoSecond, 1, 0, Restart, Again)
    else if a.typ == COMMA && b.IsUnaryOp()
            && (c.typ == NUMBER || c.typ == BAREWORD || c.typ == VARIABLE || c.typ == STRING) then
      Ruling(ThirdOntoSecond, 3, 0, Restart, Again)
    else if a.typ == COMMA && b.IsUnaryOp() && c.typ == FUNCTION then
      Ruling(ThirdOntoSecond, 1, 0, Restart, Again)
    else if a.typ == BAREWORD && b.typ == DOT && c.typ == BAREWORD then Drop(2, 0, Restart)
    else if a.typ == EXPRESSION && b.typ == DOT && c.typ == BAREWORD then
      Ruling(ThirdOntoSecond, 1, 0, Restart, Again)
    else if a.typ == FUNCTION && b.typ == LEFTPARENS && c.typ != RIGHTPARENS && a.Named("USER") then
      Ruling(RetypeLeft(BAREWORD), 0, 0, Stay, GoOn)
    else NO_RULE
  }

  /** Five tokens that carry no more information than their first. */
  predicate Collapses(a: byte, b: byte, c: byte, d: byte, e: byte) {
    || (a == NUMBER && (b == OPERATOR || b == COMMA) && c == LEFTPARENS && d == NUMBER && e == RIGHTPARENS)
    || (a == BAREWORD && b == OPERATOR && c == LEFTPARENS && (d == BAREWORD || d == NUMBER) && e == RIGHTPARENS)
    || (a == NUMBER && b == RIGHTPARENS && c == COMMA && d == LEFTPARENS && e == NUMBER)
    || (a == BAREWORD && b == RIGHTPARENS && c == OPERATOR && d == LEFTPARENS && e == BAREWORD)
  }
}
