/** What the scanners read, told from the input and not from the scanners: each law takes the
    input apart, and says what one call makes of it. Types and marks are written out as the
    characters the program stores. */
module ScannerLaws {
  import opened Bytes
  import opened Tokens
  import opened Scanners

  /** What the buffer of a token keeps of a text. */
  function Kept(text: bytes): bytes { if |text| <= 31 then text else text[..31] }

  /** A token without quotes, `at` bytes behind the current byte. */
  function Bare(at: nat, typ: byte, text: bytes): Token {
    Token(at, 0, typ, '\0', '\0', Kept(text))
  }

  /** A string between two marks. */
  function Marked(at: nat, text: bytes, open: byte, close: byte): Token {
    Token(at, 0, 's', open, close, Kept(text))
  }

  /** `char_is_white`: white space, the no-break space, and NUL. */
  predicate Blank(c: byte) { c == ' ' || '\t' <= c <= '\r' || c as int == 160 || c as int == 0 }

  /** x and y side by side somewhere in t. */
  ghost predicate Has(t: bytes, x: byte, y: byte) { exists k: nat :: PairAt(t, k, x, y) }

  /** The first n bytes of r are a line, and a newline or the end comes next. */
  predicate IsLine(r: bytes, n: nat) {
    && n <= |r| && (forall k :: 0 <= k < n ==> r[k] != '\n')
    && (n == |r| || r[n] == '\n')
  }

  lemma BlankIsWhite(c: byte)
    ensures IsWhite(c) <==> Blank(c)
  {
  }

  /** Only a dollar sign is ever looked at with what stands before it. */
  lemma ScanFromHere(s: bytes, p: nat, flags: Flags, lookup: Lookup)
    requires p < |s|
    ensures s[p] != '$' ==> ScanAt(s, p, flags, lookup) == ScanHere(s[p..], flags, lookup)
  {
    hide ScanHere, MoneyTag, Span;
  }

  /** Control characters, the space, DEL and the no-break space yield no token; all else does. */
  lemma BlanksAreSkipped(s: bytes, p: nat, flags: Flags, lookup: Lookup)
    requires p < |s| && (s[p] as int <= 32 || s[p] as int == 127 || s[p] as int == 160)
    ensures ScanAt(s, p, flags, lookup) == Scan(1, Token(0, 0, '\0', '\0', '\0', []), 0, 0)
  {
    hide ScanAt, Word, Number, StringCore, MoneyTag, Money, Slash, Dash, Hash;
    ScanFromHere(s, p, flags, lookup);
  }

  lemma SingleBytes(s: bytes, p: nat, flags: Flags, lookup: Lookup)
    requires p < |s|
    ensures var c, sc := s[p], ScanAt(s, p, flags, lookup);
      && (c == '(' || c == ')' || c == ',' || c == ';' || c == '{' || c == '}' ==>
            sc == Scan(1, Bare(0, c, [c]), 0, 0))
      && (c == '?' || c == ']' ==> sc == Scan(1, Bare(0, '?', [c]), 0, 0))
      && (c == '%' || c == '+' || c == '^' || c == '~' ==> sc == Scan(1, Bare(0, 'o', [c]), 0, 0))
  {
    hide ScanAt, Word, Number, StringCore, MoneyTag, Money, Slash, Dash, Hash, EString, UString, QStringCore, NqString,
         DigitString, Tick, Var, BWord, Operator2, Backslash, EolComment, Span;
    ScanFromHere(s, p, flags, lookup);
  }

  /** Operators of three bytes, of two if the dictionary has them, or of one. A colon that is
      followed by something, but is no operator with it, is a colon. */
  lemma Operators(s: bytes, p: nat, flags: Flags, lookup: Lookup)
    requires p < |s|
    requires s[p] in ['!', '&', '*', ':', '<', '=', '>', '|']
    ensures var r, sc := s[p..], ScanAt(s, p, flags, lookup);
      if |r| >= 3 && r[..3] == ['<', '=', '>'] then sc == Scan(3, Bare(0, 'o', r[..3]), 0, 0)
      else if |r| >= 2 && lookup(OperatorLookup, r[..2]) != '\0' then
        sc == Scan(2, Bare(0, lookup(OperatorLookup, r[..2]), r[..2]), 0, 0)
      else sc == Scan(1, Bare(0, if |r| >= 2 && r[0] == ':' then ':' else 'o', [r[0]]), 0, 0)
  {
    hide ScanAt, Word, Number, StringCore, MoneyTag, Money, Slash, Dash, Hash, EString, UString, QStringCore, NqString,
         DigitString, Tick, Var, BWord, Backslash, EolComment, Span;
    ScanFromHere(s, p, flags, lookup);
  }

  lemma Eol(r: bytes, n: nat)
    requires IsLine(r, n)
    ensures EolComment(r) == Scan(if n == |r| then n else n + 1, Bare(0, 'c', r[..n]), 0, 0)
  {
    assert IndexOf(r, '\n') == n;
  }

  /** A hash starts a comment in the MySQL dialect and is an operator in the other. */
  lemma Hashes(s: bytes, p: nat, flags: Flags, lookup: Lookup, n: nat)
    requires p < |s| && s[p] == '#' && IsLine(s[p..], n)
    ensures var r, sc := s[p..], ScanAt(s, p, flags, lookup);
      sc == if flags.mysql then Scan(if n == |r| then n else n + 1, Bare(0, 'c', r[..n]), 0, 2)
            else Scan(1, Bare(0, 'o', ['#']), 0, 1)
  {
    hide ScanAt, Word, Number, StringCore, MoneyTag, Money, Slash, Dash, EolComment, EString, UString, QStringCore,
         NqString, DigitString, Tick, Var, BWord, Operator2, Backslash, Span;
    ScanFromHere(s, p, flags, lookup);
    Eol(s[p..], n);
  }

  /** Two dashes start a comment if the end or a blank follows, and otherwise in the ANSI
      dialect only, which is counted. */
  lemma Dashes(s: bytes, p: nat, flags: Flags, lookup: Lookup, n: nat)
    requires p < |s| && s[p] == '-' && IsLine(s[p..], n)
    ensures var r, sc := s[p..], ScanAt(s, p, flags, lookup);
      var twice := |r| >= 2 && r[1] == '-';
      var clear := |r| == 2 || (|r| > 2 && Blank(r[2]));
      sc == if twice && (clear || flags.ansi) then
              Scan(if n == |r| then n else n + 1, Bare(0, 'c', r[..n]), if clear then 0 else 1, 0)
            else Scan(1, Bare(0, 'o', ['-']), 0, 0)
  {
    hide ScanAt, Word, Number, StringCore, MoneyTag, Money, Slash, Hash, EolComment, EString, UString, QStringCore,
         NqString, DigitString, Tick, Var, BWord, Operator2, Backslash, Span, IsWhite;
    ScanFromHere(s, p, flags, lookup);
    Eol(s[p..], n);
    if |s[p..]| > 2 { BlankIsWhite(s[p..][2]); }
  }

  /** The first n bytes, and one more if there is one, do not hold x and y side by side; x and y
      come next, or the end. */
  lemma FirstPairIs(body: bytes, x: byte, y: byte, n: nat)
    requires n <= |body| && !Has(body[..if n < |body| then n + 1 else n], x, y)
    requires n < |body| ==> PairAt(body, n, x, y)
    ensures IndexOf2(body, x, y) == n
  {
    var end := IndexOf2(body, x, y);
    if end < n { assert PairAt(body[..if n < |body| then n + 1 else n], end, x, y); }
  }

  /** The star of an end mark is no slash. */
  lemma StarIsNoSlash(body: bytes, n: nat)
    requires n <= |body| && !Has(body[..n], '*', '/') && (n < |body| ==> body[n] == '*')
    ensures !Has(body[..if n < |body| then n + 1 else n], '*', '/')
  {
    var longer := body[..if n < |body| then n + 1 else n];
    forall k: nat ensures !PairAt(longer, k, '*', '/') { assert !PairAt(body[..n], k, '*', '/'); }
  }

  lemma HasMeans(t: bytes, x: byte, y: byte)
    ensures Has(t, x, y) <==> IndexOf2(t, x, y) < |t|
  {
    var i := IndexOf2(t, x, y);
    if i < |t| { assert PairAt(t, i, x, y); }
  }

  lemma ScanSlash(s: bytes, p: nat, flags: Flags, lookup: Lookup)
    requires p < |s| && s[p] == '/'
    ensures ScanAt(s, p, flags, lookup) == Slash(s[p..])
  {
    hide ScanAt, Word, Number, StringCore, MoneyTag, Money, Hash, Dash, EolComment, EString, UString, QStringCore,
         NqString, DigitString, Tick, Var, BWord, Operator2, Backslash, Slash;
    ScanFromHere(s, p, flags, lookup);
  }

  lemma CutIsKept(text: bytes)
    ensures Cut(text) == Kept(text)
  {
  }

  /** A comment with body n bytes long: evil if a comment starts inside, the star of its end
      mark included, or if the body starts with an exclamation mark. */
  lemma Comments(s: bytes, p: nat, flags: Flags, lookup: Lookup, n: nat)
    requires p < |s| && s[p] == '/' && |s[p..]| >= n + 2 && s[p..][1] == '*'
    requires !Has(s[p..][2..][..n], '*', '/')
    ensures var r, sc := s[p..], ScanAt(s, p, flags, lookup);
      && (PairAt(r, n + 2, '*', '/') ==>
            var evil := Has(r[2..][..n + 1], '/', '*') || r[2] == '!';
            sc == Scan(n + 4, Bare(0, if evil then 'X' else 'c', r[..n + 4]), 0, 0))
      && (|r| == n + 2 ==> sc == Scan(n + 2, Bare(0, if n > 0 && r[2] == '!' then 'X' else 'c', r), 0, 0))
  {
    hide ScanAt, Cut, IndexOf2;
    ScanSlash(s, p, flags, lookup);
    var r := s[p..];
    var body := r[2..];
    if PairAt(r, n + 2, '*', '/') {
      assert PairAt(body, n, '*', '/');
      StarIsNoSlash(body, n);
      FirstPairIs(body, '*', '/', n);
      HasMeans(body[..n + 1], '/', '*');
    } else if |r| == n + 2 {
      StarIsNoSlash(body, n);
      FirstPairIs(body, '*', '/', n);
      assert r[..|r|] == r;
    }
    hide *;
    CutIsKept(r[..if |r| == n + 2 then n + 2 else if |r| >= n + 4 then n + 4 else 0]);
  }

  lemma Divisions(s: bytes, p: nat, flags: Flags, lookup: Lookup)
    requires p < |s| && s[p] == '/' && (p + 1 == |s| || s[p + 1] != '*')
    ensures ScanAt(s, p, flags, lookup) == Scan(1, Bare(0, 'o', ['/']), 0, 0)
  {
    hide ScanAt, Word, Number, StringCore, MoneyTag, Money, Hash, Dash, EolComment, EString, UString, QStringCore,
         NqString, DigitString, Tick, Var, BWord, Operator2, Backslash, Span, IndexOf2;
    ScanFromHere(s, p, flags, lookup);
  }

  /** `\N` is a number, any other backslash stands alone. */
  lemma Backslashes(s: bytes, p: nat, flags: Flags, lookup: Lookup)
    requires p < |s| && s[p] == '\\'
    ensures ScanAt(s, p, flags, lookup) ==
      if p + 1 < |s| && s[p + 1] == 'N' then Scan(2, Bare(0, '1', ['\\', 'N']), 0, 0)
      else Scan(1, Bare(0, '\\', ['\\']), 0, 0)
  {
    hide ScanAt, Word, Number, StringCore, MoneyTag, Money, Hash, Dash, EolComment, EString, UString, QStringCore,
         NqString, DigitString, Tick, Var, BWord, Operator2, Slash, Span, IndexOf2;
    ScanFromHere(s, p, flags, lookup);
    if p + 1 < |s| && s[p + 1] == 'N' { assert s[p..][..2] == ['\\', 'N']; }
  }
}
