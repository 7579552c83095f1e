/** What the scanners read of strings. The text of a string is told as a list of pieces: a
    backslash with the byte it escapes, a doubled quote, or any other byte. */
module StringLaws {
  import opened Bytes
  import opened Tokens
  import opened Scanners
  import opened ScannerLaws
  import opened Tokenizer

  predicate IsPiece(u: bytes, d: byte) {
    || (|u| == 1 && u[0] != '\\' && u[0] != d)
    || (|u| == 2 && (u[0] == '\\' || (u[0] == d && u[1] == d)))
  }

  predicate Pieces(us: seq<bytes>, d: byte) { forall i :: 0 <= i < |us| ==> IsPiece(us[i], d) }

  function Flat(us: seq<bytes>): bytes { if us == [] then [] else us[0] + Flat(us[1..]) }

  /** The text at the start of body is n bytes long: a single quote closes it, or it takes
      everything, be it that the last byte is a lone backslash. */
  ghost predicate IsText(body: bytes, n: nat, d: byte) {
    exists us: seq<bytes> :: Pieces(us, d) && n <= |body|
      && if n < |body| then Flat(us) == body[..n] && body[n] == d && (n + 1 == |body| || body[n + 1] != d)
         else Flat(us) == body || Flat(us) + ['\\'] == body
  }

  lemma {:induction false} PiecesAreRead(us: seq<bytes>, d: byte, tail: bytes)
    requires Pieces(us, d) && d != '\\'
    ensures ClosingQuote(Flat(us) + tail, d) == |Flat(us)| + ClosingQuote(tail, d)
  {
    if us == [] {
      assert Flat(us) + tail == tail;
    } else {
      PiecesAreRead(us[1..], d, tail);
      var rest := Flat(us[1..]) + tail;
      var body := Flat(us) + tail;
      assert IsPiece(us[0], d);
      assert body == us[0] + rest;
      assert body[|us[0]|..] == rest;
    }
  }

  /** The closing quote the scanner finds is where the text ends. */
  lemma TextCloses(body: bytes, n: nat, d: byte)
    requires IsText(body, n, d) && d != '\\'
    ensures ClosingQuote(body, d) == n <= |body|
  {
    var us: seq<bytes> :| Pieces(us, d) && n <= |body|
      && if n < |body| then Flat(us) == body[..n] && body[n] == d && (n + 1 == |body| || body[n + 1] != d)
         else Flat(us) == body || Flat(us) + ['\\'] == body;
    if n < |body| {
      PiecesAreRead(us, d, body[n..]);
      assert Flat(us) + body[n..] == body;
    } else if Flat(us) == body {
      PiecesAreRead(us, d, []);
      assert Flat(us) + [] == body;
    } else {
      PiecesAreRead(us, d, ['\\']);
    }
  }

  lemma Longer(u: bytes, us: seq<bytes>, d: byte)
    requires IsPiece(u, d) && Pieces(us, d)
    ensures Pieces([u] + us, d) && Flat([u] + us) == u + Flat(us)
  {
    assert ([u] + us)[1..] == us;
  }

  /** A piece in front of a text makes a longer text. */
  lemma TextGrows(u: bytes, rest: bytes, m: nat, d: byte)
    requires IsPiece(u, d) && IsText(rest, m, d)
    ensures IsText(u + rest, |u| + m, d)
  {
    var us: seq<bytes> :| Pieces(us, d) && m <= |rest|
      && if m < |rest| then Flat(us) == rest[..m] && rest[m] == d && (m + 1 == |rest| || rest[m + 1] != d)
         else Flat(us) == rest || Flat(us) + ['\\'] == rest;
    Longer(u, us, d);
    var body := u + rest;
    if m < |rest| {
      assert body[..|u| + m] == u + rest[..m];
    } else if Flat(us) != rest {
      assert u + Flat(us) + ['\\'] == body;
    }
    assert Pieces([u] + us, d);
  }

  lemma NoText(body: bytes, d: byte)
    requires d != '\\'
    requires body == [] || body == ['\\'] || (body[0] == d && (|body| == 1 || body[1] != d))
    ensures IsText(body, if body == ['\\'] then 1 else 0, d)
  {
    assert Pieces([], d) && Flat([]) == [] && Flat([]) + ['\\'] == ['\\'];
  }

  /** Every body starts with a text. */
  lemma {:induction false} EveryText(body: bytes, d: byte)
    requires d != '\\'
    ensures IsText(body, ClosingQuote(body, d), d)
    decreases |body|
  {
    hide IsText;
    if body == [] || body == ['\\'] || (body[0] == d && (|body| == 1 || body[1] != d)) {
      NoText(body, d);
    } else {
      var k := if body[0] == '\\' || body[0] == d then 2 else 1;
      EveryText(body[k..], d);
      TextGrows(body[..k], body[k..], ClosingQuote(body[k..], d), d);
      assert body[..k] + body[k..] == body;
    }
  }

  /** A string whose text starts at `offset`. */
  lemma CoreReads(r: bytes, d: byte, offset: nat, n: nat)
    requires offset <= |r| && d != '\\' && IsText(r[offset..], n, d)
    ensures n <= |r| - offset
    ensures StringCore(r, d, offset) ==
      var open := if offset > 0 then d else '\0';
      if offset + n < |r| then Scan(offset + n + 1, Marked(offset, r[offset..offset + n], open, d), 0, 0)
      else Scan(|r|, Marked(offset, r[offset..], open, '\0'), 0, 0)
  {
    hide IsText, ClosingQuote, Cut;
    TextCloses(r[offset..], n, d);
    if offset + n < |r| { assert r[offset..][..n] == r[offset..offset + n]; }
    CutIsKept(r[offset..][..n]);
    CutIsKept(r[offset..]);
  }

  lemma Strings(s: bytes, p: nat, flags: Flags, lookup: Lookup, n: nat)
    requires p < |s| && (s[p] == '\'' || s[p] == '"') && IsText(s[p..][1..], n, s[p])
    ensures var r, d := s[p..], s[p];
      ScanAt(s, p, flags, lookup) ==
        if n + 1 < |r| then Scan(n + 2, Marked(1, r[1..n + 1], d, d), 0, 0)
        else Scan(|r|, Marked(1, r[1..], d, '\0'), 0, 0)
  {
    hide ScanAt, Word, Number, StringCore, MoneyTag, EString, UString, QStringCore, NqString, DigitString, Tick, Var,
         Money, BWord, Operator2, EolComment, Slash, Dash, Hash, IsText;
    ScanFromHere(s, p, flags, lookup);
    CoreReads(s[p..], s[p], 1, n);
  }

  /** In a quoted context the input starts inside a string, which has no opening mark. */
  lemma SimulatedString(job: Job, n: nat)
    requires job.s != [] && (job.flags.quoteSingle || job.flags.quoteDouble)
    requires IsText(job.s, n, if job.flags.quoteSingle then '\'' else '"')
    ensures var s, d := job.s, if job.flags.quoteSingle then '\'' else '"';
      NextToken(job, Cursor(0, 0, 0, 0)) ==
        if n < |s| then Found(Cursor(n + 1, 0, 0, 1), Marked(0, s[..n], '\0', d))
        else Found(Cursor(|s|, 0, 0, 1), Marked(0, s, '\0', '\0'))
  {
    hide StringCore, IsText, Advance;
    assert job.s[0..] == job.s;
    CoreReads(job.s, job.flags.Delim(), 0, n);
  }

  lemma ScanLetterString(s: bytes, p: nat, flags: Flags, lookup: Lookup)
    requires p + 2 < |s| && s[p] in ['E', 'e', 'N', 'n'] && s[p + 1] == '\''
    ensures ScanAt(s, p, flags, lookup) == StringCore(s[p..], '\'', 2)
  {
    hide ScanAt, Word, Number, StringCore, MoneyTag, UString, QStringCore, DigitString, Tick, Var, Span,
         Money, BWord, Operator2, EolComment, Slash, Dash, Hash;
    ScanFromHere(s, p, flags, lookup);
  }

  /** `E'...'` and `N'...'`, in either case. */
  lemma LetterStrings(s: bytes, p: nat, flags: Flags, lookup: Lookup, n: nat)
    requires p + 2 < |s| && s[p] in ['E', 'e', 'N', 'n'] && s[p + 1] == '\'' && IsText(s[p..][2..], n, '\'')
    ensures var r := s[p..];
      ScanAt(s, p, flags, lookup) ==
        if n + 2 < |r| then Scan(n + 3, Marked(2, r[2..n + 2], '\'', '\''), 0, 0)
        else Scan(|r|, Marked(2, r[2..], '\'', '\0'), 0, 0)
  {
    hide ScanAt, StringCore, IsText;
    ScanLetterString(s, p, flags, lookup);
    CoreReads(s[p..], '\'', 2, n);
  }

  lemma ScanUnicode(s: bytes, p: nat, flags: Flags, lookup: Lookup)
    requires p < |s| && (s[p] == 'U' || s[p] == 'u')
    ensures ScanAt(s, p, flags, lookup) == UString(s[p..], lookup)
  {
    hide ScanAt, Word, Number, StringCore, MoneyTag, EString, UString, QStringCore, NqString, DigitString, Tick, Var,
         Money, BWord, Operator2, EolComment, Slash, Dash, Hash;
    ScanFromHere(s, p, flags, lookup);
  }

  /** `U&'...'`, in either case. */
  lemma UnicodeStrings(s: bytes, p: nat, flags: Flags, lookup: Lookup, n: nat)
    requires p + 2 < |s| && (s[p] == 'U' || s[p] == 'u') && s[p + 1] == '&' && s[p + 2] == '\''
    requires IsText(s[p..][3..], n, '\'')
    ensures var r := s[p..];
      ScanAt(s, p, flags, lookup) ==
        if n + 3 < |r| then Scan(n + 4, Marked(3, r[3..n + 3], 'u', 'u'), 0, 0)
        else Scan(|r|, Marked(3, r[3..], 'u', '\0'), 0, 0)
  {
    hide ScanAt, StringCore, IsText;
    ScanUnicode(s, p, flags, lookup);
    var r := s[p..];
    assert r[2..][1..] == r[3..];
    if n <= |r| - 3 { assert r[2..][1..1 + n] == r[3..3 + n]; }
    CoreReads(r[2..], '\'', 1, n);
  }

  /** The bracket that closes what o opens. */
  function Closer(o: byte): byte {
    if o == '(' then ')' else if o == '[' then ']' else if o == '{' then '}' else if o == '<' then '>' else o
  }

  lemma ScanBracket(s: bytes, p: nat, flags: Flags, lookup: Lookup, k: nat)
    requires k <= 1 && p + k + 2 < |s| && s[p + k + 1] == '\''
    requires (s[p + k] == 'Q' || s[p + k] == 'q') && (k == 1 ==> s[p] == 'N' || s[p] == 'n')
    ensures ScanAt(s, p, flags, lookup) == QStringCore(s[p..], k, lookup)
  {
    hide ScanAt, Word, Number, StringCore, MoneyTag, EString, UString, DigitString, Tick, Var, QStringCore,
         Money, BWord, Operator2, EolComment, Slash, Dash, Hash, Span;
    ScanFromHere(s, p, flags, lookup);
  }

  /** `q'[...]'` and `nq'[...]'`, in either case and with any visible 7-bit byte that opens. */
  lemma BracketStrings(s: bytes, p: nat, flags: Flags, lookup: Lookup, k: nat, n: nat)
    requires k <= 1 && p + k + 2 < |s|
    requires (s[p + k] == 'Q' || s[p + k] == 'q') && (k == 1 ==> s[p] == 'N' || s[p] == 'n')
    requires s[p + k + 1] == '\'' && 33 <= s[p + k + 2] as int < 128
    requires var body := s[p..][k + 3..];
      n <= |body| && !Has(body[..if n < |body| then n + 1 else n], Closer(s[p + k + 2]), '\'')
      && (n < |body| ==> PairAt(body, n, Closer(s[p + k + 2]), '\''))
    ensures var r := s[p..];
      ScanAt(s, p, flags, lookup) ==
        if k + 3 + n < |r| then Scan(k + n + 5, Marked(k + 3, r[k + 3..k + 3 + n], 'q', 'q'), 0, 0)
        else Scan(|r|, Marked(k + 3, r[k + 3..], 'q', '\0'), 0, 0)
  {
    hide ScanAt, Word, IndexOf2, PairAt, Cut, Kept;
    ScanBracket(s, p, flags, lookup, k);
    var r := s[p..];
    var q := r[k..];
    assert q[3..] == r[k + 3..];
    var body := r[k + 3..];
    var close := Closer(q[2]);
    var end := IndexOf2(body, close, '\'');
    FirstPairIs(body, close, '\'', n);
    assert body[..n] == r[k + 3..k + 3 + n];
    CutIsKept(body[..n]);
    CutIsKept(body);
  }

  /** `b'0101'` and `x'0aF'`: the digits up to the quote, all of their kind (or NUL). */
  predicate IsDigitString(r: bytes, n: nat) {
    && n + 2 < |r| && r[1] == '\'' && r[n + 2] == '\''
    && (forall k :: 2 <= k < n + 2 ==>
          || r[k] as int == 0 || r[k] == '0' || r[k] == '1'
          || ((r[0] == 'x' || r[0] == 'X')
              && ('0' <= r[k] <= '9' || 'a' <= r[k] <= 'f' || 'A' <= r[k] <= 'F')))
  }

  lemma HexDigitsAre(c: byte)
    ensures Accepts(HEX_DIGITS, c) <==> c as int == 0 || '0' <= c <= '9' || 'a' <= c <= 'f' || 'A' <= c <= 'F'
    ensures Accepts(BINARY_DIGITS, c) <==> c as int == 0 || c == '0' || c == '1'
  {
  }

  lemma {:induction false} SpanOf(s: bytes, accept: string, n: nat)
    requires n <= |s| && (n < |s| ==> !Accepts(accept, s[n])) && forall k :: 0 <= k < n ==> Accepts(accept, s[k])
    ensures Span(s, accept) == n
  {
    hide Accepts;
  }

  lemma DigitStrings(s: bytes, p: nat, flags: Flags, lookup: Lookup, n: nat)
    requires p < |s| && s[p] in ['B', 'b', 'X', 'x'] && IsDigitString(s[p..], n)
    ensures ScanAt(s, p, flags, lookup) == Scan(n + 3, Bare(0, '1', s[p..][..n + 3]), 0, 0)
  {
    hide ScanAt, Word, Number, StringCore, MoneyTag, EString, UString, QStringCore, NqString, Tick, Var, Span,
         Money, BWord, Operator2, EolComment, Slash, Dash, Hash, Accepts, HEX_DIGITS, BINARY_DIGITS, Cut, Kept;
    ScanFromHere(s, p, flags, lookup);
    var r := s[p..];
    var digits := if r[0] == 'x' || r[0] == 'X' then HEX_DIGITS else BINARY_DIGITS;
    forall k | 0 <= k < n ensures Accepts(digits, r[2..][k]) { HexDigitsAre(r[k + 2]); }
    HexDigitsAre(r[n + 2]);
    SpanOf(r[2..], digits, n);
    CutIsKept(r[..n + 3]);
  }

  /** A back-quoted name is a bare word, or a function if the dictionary has it as one. */
  lemma BackquotedNames(s: bytes, p: nat, flags: Flags, lookup: Lookup, n: nat)
    requires p < |s| && s[p] == '`' && IsText(s[p..][1..], n, '`')
    ensures var r, sc := s[p..], ScanAt(s, p, flags, lookup);
      n < |r| && var val := Kept(r[1..n + 1]);
      && sc.len == (if n + 1 < |r| then n + 2 else n + 1) && sc.ddx == sc.hash == 0
      && sc.tok == Token(1, 0, if lookup(WordLookup, val) == 'f' then 'f' else 'n', '`',
                         if n + 1 < |r| then '`' else '\0', val)
  {
    hide ScanAt, Word, Number, StringCore, MoneyTag, EString, UString, QStringCore, NqString, DigitString, Var,
         Money, BWord, Operator2, EolComment, Slash, Dash, Hash, IsText;
    ScanFromHere(s, p, flags, lookup);
    var r := s[p..];
    CoreReads(r, '`', 1, n);
    if n + 1 == |r| { assert r[1..] == r[1..n + 1]; }
  }

  lemma ScanVar(s: bytes, p: nat, flags: Flags, lookup: Lookup)
    requires p < |s| && s[p] == '@'
    ensures ScanAt(s, p, flags, lookup) == Var(s[p..], lookup)
  {
    hide ScanAt, Word, Number, StringCore, MoneyTag, EString, UString, QStringCore, NqString, DigitString, Var, Tick,
         Span, Money, BWord, Operator2, EolComment, Slash, Dash, Hash;
    ScanFromHere(s, p, flags, lookup);
  }

  /** A variable whose name is quoted: one or two at-signs, then the quoted name. */
  lemma QuotedVariables(s: bytes, p: nat, flags: Flags, lookup: Lookup, k: nat, n: nat)
    requires 1 <= k <= 2 && p + k < |s| && s[p] == '@' && s[p + k - 1] == '@'
    requires s[p + k] in ['`', '\'', '"'] && IsText(s[p..][k + 1..], n, s[p + k])
    ensures var r, d := s[p..], s[p + k];
      ScanAt(s, p, flags, lookup) ==
        if k + 1 + n < |r| then Scan(k + n + 2, Token(k + 1, k, 'v', d, d, Kept(r[k + 1..k + 1 + n])), 0, 0)
        else Scan(|r|, Token(k + 1, k, 'v', d, '\0', Kept(r[k + 1..])), 0, 0)
  {
    hide ScanAt, IsText, Kept, StringCore;
    ScanVar(s, p, flags, lookup);
    var r := s[p..];
    var v := r[k..];
    assert v[1..] == r[k + 1..];
    CoreReads(v, v[0], 1, n);
    if n < |v| - 1 { assert v[1..1 + n] == r[k + 1..k + 1 + n]; }
  }
}
