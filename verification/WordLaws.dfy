/** What the scanners read of words, variables, money and numbers. */
module WordLaws {
  import opened Bytes
  import opened Tokens
  import opened Scanners
  import opened ScannerLaws
  import opened StringLaws

  /** The bytes no word contains: NUL, white space, and ASCII punctuation but for the dollar
      sign, the dot, the underscore and the backquote. */
  predicate EndsWord(c: byte) {
    || c as int == 0 || '\t' <= c <= '\r' || c as int == 160
    || (' ' <= c <= '/' && c != '$' && c != '.') || ':' <= c <= '@' || '[' <= c <= '^' || '{' <= c <= '~'
  }

  /** The bytes no plain variable name contains. */
  predicate EndsVariable(c: byte) {
    || c as int == 0 || '\t' <= c <= '\r'
    || (' ' <= c <= '/' && c != '$' && c != '.') || ':' <= c <= '@' || c == '\\' || c == '^' || c == '`'
    || c == '|' || c == '~'
  }

  predicate Letter(c: byte) { 'a' <= c <= 'z' || 'A' <= c <= 'Z' }

  lemma WordStopsEnd(c: byte)
    ensures Accepts(WORD_STOPS, c) ==> EndsWord(c)
  {
  }

  lemma EndsAreStops(c: byte)
    ensures EndsWord(c) ==> Accepts(WORD_STOPS, c)
  {
  }

  lemma WordStopsAre(c: byte)
    ensures Accepts(WORD_STOPS, c) <==> EndsWord(c)
  {
    hide Accepts, EndsWord, WORD_STOPS;
    WordStopsEnd(c);
    EndsAreStops(c);
  }

  lemma VarStopsEnd(c: byte)
    ensures Accepts(VAR_STOPS, c) ==> EndsVariable(c)
  {
  }

  lemma VarEndsAreStops(c: byte)
    ensures EndsVariable(c) ==> Accepts(VAR_STOPS, c)
  {
  }

  lemma VarStopsAre(c: byte)
    ensures Accepts(VAR_STOPS, c) <==> EndsVariable(c)
  {
    hide Accepts, EndsVariable, VAR_STOPS;
    VarStopsEnd(c);
    VarEndsAreStops(c);
  }

  lemma LowerLetters(c: byte)
    ensures c in "abcdefghjiklmnopqrstuvwxyz" <==> 'a' <= c <= 'z'
  {
  }

  lemma UpperLetters(c: byte)
    ensures c in "ABCDEFGHIJKLMNOPQRSTUVWXYZ" <==> 'A' <= c <= 'Z'
  {
  }

  lemma InEither(a: string, b: string, c: byte)
    ensures c in a + b <==> c in a || c in b
  {
  }

  lemma LettersAre(c: byte)
    ensures Accepts(LETTERS, c) <==> c as int == 0 || Letter(c)
  {
    LowerLetters(c);
    UpperLetters(c);
    InEither("abcdefghjiklmnopqrstuvwxyz", "ABCDEFGHIJKLMNOPQRSTUVWXYZ", c);
  }

  lemma MoneyCharsAre(c: byte)
    ensures Accepts(MONEY_CHARS, c) <==> c as int == 0 || '0' <= c <= '9' || c == '.' || c == ','
  {
  }

  lemma {:induction false} SpanNotOf(s: bytes, stops: string, n: nat)
    requires n <= |s| && (n < |s| ==> Accepts(stops, s[n])) && forall k :: 0 <= k < n ==> !Accepts(stops, s[k])
    ensures SpanNot(s, stops) == n
  {
    hide Accepts;
  }

  /** The first n bytes of r are a word, and a byte that ends words or the end comes next. */
  predicate IsWordOf(r: bytes, n: nat) {
    && n <= |r| && (forall k :: 0 <= k < n ==> !EndsWord(r[k])) && (n < |r| ==> EndsWord(r[n]))
  }

  lemma WordLength(r: bytes, n: nat)
    requires IsWordOf(r, n)
    ensures SpanNot(r, WORD_STOPS) == n
  {
    hide Accepts, WORD_STOPS, EndsWord;
    forall k | 0 <= k < n ensures !Accepts(WORD_STOPS, r[k]) { WordStopsAre(r[k]); }
    if n < |r| { WordStopsAre(r[n]); }
    SpanNotOf(r, WORD_STOPS, n);
  }

  /** The word up to its dot or backquote at i is one of the dictionary's own. */
  predicate Splits(w: bytes, lookup: Lookup, i: nat) {
    && i < |w| && (w[i] == '.' || w[i] == '`')
    && lookup(WordLookup, w[..i]) as int != 0 && lookup(WordLookup, w[..i]) != 'n'
  }

  lemma {:induction false} SplitIs(val: bytes, lookup: Lookup, from: nat, i: nat)
    requires from <= i <= |val| && (i < |val| ==> Splits(val, lookup, i))
    requires forall k: nat :: from <= k < i ==> !Splits(val, lookup, k)
    ensures SplitAt(val, lookup, from) == i
    decreases i - from
  {
    if from == i {
    } else {
      assert !Splits(val, lookup, from);
      SplitIs(val, lookup, from + 1, i);
    }
  }

  /** What the word of n bytes at the start of r is read as: up to its first dot or backquote
      behind a word of the dictionary, else whole. i is that place, or 31 or n if none. */
  predicate ReadsWord(r: bytes, lookup: Lookup, n: nat, i: nat, sc: Scan) {
    var w := Kept(r[..if n <= |r| then n else |r|]);
    if i < |w| then i <= |r| && sc == Scan(i, Bare(0, lookup(WordLookup, w[..i]), r[..i]), 0, 0)
    else
      var ch := lookup(WordLookup, w);
      sc == Scan(n, Bare(0, if n < 32 && ch as int != 0 then ch else 'n', w), 0, 0)
  }

  lemma WordIs(r: bytes, lookup: Lookup, n: nat, i: nat)
    requires IsWordOf(r, n) && i <= |Kept(r[..n])|
    requires i < |Kept(r[..n])| ==> Splits(Kept(r[..n]), lookup, i)
    requires forall k: nat :: k < i ==> !Splits(Kept(r[..n]), lookup, k)
    ensures ReadsWord(r, lookup, n, i, Word(r, lookup))
  {
    hide SplitAt, SpanNot, Splits, Cut;
    WordLength(r, n);
    CutIsKept(r[..n]);
    var w := Kept(r[..n]);
    SplitIs(w, lookup, 0, i);
    if i < |w| {
      assert w[..i] == r[..i];
      CutIsKept(r[..i]);
    } else {
      assert Kept(w) == w;
    }
  }

  predicate StartsBracket(q: bytes) {
    |q| > 2 && (q[0] == 'q' || q[0] == 'Q') && q[1] == '\'' && 33 <= q[2] as int < 128
  }

  /** r starts one of the literals that begin with a letter. */
  ghost predicate StartsLiteral(r: bytes)
    requires r != []
  {
    || (r[0] in ['E', 'e', 'N', 'n'] && |r| > 2 && r[1] == '\'')
    || (r[0] in ['U', 'u'] && |r| > 2 && r[1] == '&' && r[2] == '\'')
    || (r[0] in ['Q', 'q'] && StartsBracket(r))
    || (r[0] in ['N', 'n'] && StartsBracket(r[1..]))
    || (r[0] in ['B', 'b', 'X', 'x'] && exists n: nat :: IsDigitString(r, n))
  }

  lemma DigitsFound(r: bytes, digits: string)
    requires |r| > 2 && r[1] == '\'' && digits == (if r[0] in ['B', 'b'] then BINARY_DIGITS else HEX_DIGITS)
    requires r[0] in ['B', 'b', 'X', 'x']
    ensures var n := Span(r[2..], digits);
      2 + n < |r| && r[2 + n] == '\'' ==> IsDigitString(r, n)
  {
    hide Accepts, HEX_DIGITS, BINARY_DIGITS;
    var n := Span(r[2..], digits);
    forall k | 2 <= k < n + 2
      ensures r[k] as int == 0 || r[k] == '0' || r[k] == '1'
        || ((r[0] == 'x' || r[0] == 'X') && ('0' <= r[k] <= '9' || 'a' <= r[k] <= 'f' || 'A' <= r[k] <= 'F'))
    {
      assert Accepts(digits, r[2..][k - 2]);
      HexDigitsAre(r[k]);
    }
  }

  lemma NoDigits(r: bytes, digits: string, lookup: Lookup)
    requires r != [] && digits == (if r[0] in ['B', 'b'] then BINARY_DIGITS else HEX_DIGITS)
    requires r[0] in ['B', 'b', 'X', 'x'] && !exists n: nat :: IsDigitString(r, n)
    ensures DigitString(r, digits, lookup) == Word(r, lookup)
  {
    hide Word, Accepts, HEX_DIGITS, BINARY_DIGITS, Plain, IsDigitString, Span;
    if |r| > 2 && r[1] == '\'' { DigitsFound(r, digits); }
  }

  lemma NoLiteral(s: bytes, p: nat, flags: Flags, lookup: Lookup)
    requires p < |s| && (Letter(s[p]) || s[p] == '_' || (s[p] as int >= 128 && s[p] as int != 160))
    requires !StartsLiteral(s[p..])
    ensures ScanAt(s, p, flags, lookup) == Word(s[p..], lookup)
  {
    hide ScanAt, Word, Number, StringCore, MoneyTag, Tick, Var, DigitString, Span, IsDigitString,
         Money, BWord, Operator2, EolComment, Slash, Dash, Hash;
    ScanFromHere(s, p, flags, lookup);
    var r := s[p..];
    if r[0] in ['B', 'b'] {
      NoDigits(r, BINARY_DIGITS, lookup);
    } else if r[0] in ['X', 'x'] {
      NoDigits(r, HEX_DIGITS, lookup);
    }
  }

  /** Words start with a letter, an underscore or a byte of 128 or more, and whatever does so
      and is no literal is a word. */
  lemma Words(s: bytes, p: nat, flags: Flags, lookup: Lookup, n: nat, i: nat)
    requires p < |s| && (Letter(s[p]) || s[p] == '_' || (s[p] as int >= 128 && s[p] as int != 160))
    requires !StartsLiteral(s[p..]) && IsWordOf(s[p..], n) && i <= |Kept(s[p..][..n])|
    requires i < |Kept(s[p..][..n])| ==> Splits(Kept(s[p..][..n]), lookup, i)
    requires forall k: nat :: k < i ==> !Splits(Kept(s[p..][..n]), lookup, k)
    ensures ReadsWord(s[p..], lookup, n, i, ScanAt(s, p, flags, lookup))
  {
    hide IsWordOf, Splits, Kept, ReadsWord;
    var r := s[p..];
    WordIs(r, lookup, n, i);
    NoLiteral(s, p, flags, lookup);
  }

  lemma NoEnd(q: byte)
    ensures q == '.' || q == '`' ==> !EndsWord(q)
  {
  }

  lemma WordDispatched(s: bytes, p: nat, flags: Flags, lookup: Lookup)
    requires p < |s| && CharParseMap(s[p]) == ParseWord
    ensures ScanAt(s, p, flags, lookup) == Word(s[p..], lookup)
  {
    hide Word, MoneyTag, Span;
  }

  lemma WordEnd(r: bytes, from: nat) returns (n: nat)
    requires from <= |r| && forall k :: 0 <= k < from ==> !EndsWord(r[k])
    ensures from <= n && IsWordOf(r, n)
  {
    hide EndsWord;
    n := from;
    while n < |r| && !EndsWord(r[n])
      invariant from <= n <= |r| && forall k :: 0 <= k < n ==> !EndsWord(r[k])
    {
      n := n + 1;
    }
  }

  /** A dot or backquote behind a word of the dictionary ends that word, whatever follows. */
  lemma SpecialWordsEnd(s: bytes, p: nat, flags: Flags, lookup: Lookup, w: bytes, q: byte, rest: bytes)
    requires p <= |s| && s[p..] == w + [q] + rest && 0 < |w| < 31 && (q == '.' || q == '`')
    requires forall k :: 0 <= k < |w| ==> !EndsWord(w[k]) && w[k] != '.' && w[k] != '`'
    requires CharParseMap(w[0]) == ParseWord
    requires lookup(WordLookup, w) as int != 0 && lookup(WordLookup, w) != 'n'
    ensures ScanAt(s, p, flags, lookup) == Scan(|w|, Token(0, 0, lookup(WordLookup, w), '\0', '\0', w), 0, 0)
  {
    hide EndsWord;
    var r := s[p..];
    assert r[0] == w[0] && r[..|w|] == w;
    forall k | 0 <= k <= |w| ensures !EndsWord(r[k]) { NoEnd(q); assert r[k] == (w + [q])[k]; }
    var n := WordEnd(r, |w| + 1);
    var k := Kept(r[..n]);
    assert k[..|w|] == w && k[|w|] == q;
    forall j: nat | j < |w| ensures !Splits(k, lookup, j) { assert k[j] == w[j]; }
    WordDispatched(s, p, flags, lookup);
    WordIs(r, lookup, n, |w|);
  }

  /** A bracketed word ends with its first closing bracket, or with the input. */
  lemma BracketWords(s: bytes, p: nat, flags: Flags, lookup: Lookup, n: nat)
    requires p < |s| && s[p] == '[' && n <= |s[p..]| && forall k :: 0 <= k < n ==> s[p..][k] != ']'
    requires n < |s[p..]| ==> s[p..][n] == ']'
    ensures var m := if n < |s[p..]| then n + 1 else n;
      ScanAt(s, p, flags, lookup) == Scan(m, Bare(0, 'n', s[p..][..m]), 0, 0)
  {
    hide ScanAt, Word, Number, StringCore, MoneyTag, Tick, Var, DigitString, Span, EString, UString, QStringCore,
         NqString, Money, Operator2, EolComment, Slash, Dash, Hash;
    ScanFromHere(s, p, flags, lookup);
    assert IndexOf(s[p..], ']') == n;
  }

  /** One or two at-signs and a name of n bytes. */
  lemma Variables(s: bytes, p: nat, flags: Flags, lookup: Lookup, k: nat, n: nat)
    requires 1 <= k <= 2 && p + k + n <= |s| && s[p] == '@' && s[p + k - 1] == '@'
    requires k == 1 && p + 1 < |s| ==> s[p + 1] != '@'
    requires p + k < |s| ==> s[p + k] != '`' && s[p + k] != '\'' && s[p + k] != '"'
    requires forall i :: p + k <= i < p + k + n ==> !EndsVariable(s[i])
    requires p + k + n < |s| ==> EndsVariable(s[p + k + n])
    ensures ScanAt(s, p, flags, lookup) ==
      Scan(k + n, Token(k, k, 'v', '\0', '\0', Kept(s[p + k..p + k + n])), 0, 0)
  {
    hide ScanAt, Word, Number, StringCore, MoneyTag, Tick, DigitString, Span, EString, UString, QStringCore, NqString,
         Money, Operator2, EolComment, Slash, Dash, Hash, BWord, Accepts, VAR_STOPS, EndsVariable, Cut, Kept;
    ScanFromHere(s, p, flags, lookup);
    var r := s[p..];
    var v := r[k..];
    assert v == s[p + k..];
    forall i | 0 <= i < n ensures !Accepts(VAR_STOPS, v[i]) { VarStopsAre(v[i]); assert v[i] == s[p + k + i]; }
    if n < |v| { VarStopsAre(v[n]); }
    SpanNotOf(v, VAR_STOPS, n);
    assert v[..n] == s[p + k..p + k + n];
    CutIsKept(v[..n]);
  }

  predicate InAmount(c: byte) { c as int == 0 || '0' <= c <= '9' || c == '.' || c == ',' }

  /** The bytes of an amount follow the dollar sign: n of them. */
  predicate IsAmount(r: bytes, n: nat) {
    && n < |r| && (forall k :: 1 <= k <= n ==> InAmount(r[k])) && (n + 1 < |r| ==> !InAmount(r[n + 1]))
  }

  lemma AmountChar(c: byte)
    ensures Accepts(MONEY_CHARS, c) <==> InAmount(c)
  {
    MoneyCharsAre(c);
  }

  lemma AmountLength(r: bytes, n: nat)
    requires IsAmount(r, n)
    ensures Span(r[1..], MONEY_CHARS) == n
  {
    hide Accepts, MONEY_CHARS, InAmount;
    forall k | 0 <= k < n ensures Accepts(MONEY_CHARS, r[1..][k]) { AmountChar(r[k + 1]); }
    if n + 1 < |r| { AmountChar(r[n + 1]); }
    SpanOf(r[1..], MONEY_CHARS, n);
  }

  /** A dollar sign with an amount is a number, and one before a lone dot starts a word. */
  lemma Amounts(s: bytes, p: nat, flags: Flags, lookup: Lookup, n: nat)
    requires p < |s| && s[p] == '$' && IsAmount(s[p..], n) && n > 0
    ensures var r, sc := s[p..], ScanAt(s, p, flags, lookup);
      if n == 1 && r[1] == '.' then sc == Word(r, lookup)
      else sc == Scan(n + 1, Bare(0, '1', r[..n + 1]), 0, 0)
  {
    hide Word, MoneyTag, Span, Accepts, LETTERS, MONEY_CHARS, Cut, Kept;
    AmountLength(s[p..], n);
    CutIsKept(s[p..][..n + 1]);
  }

  /** `$$...$$`. */
  lemma DollarStrings(s: bytes, p: nat, flags: Flags, lookup: Lookup, n: nat)
    requires p + 1 < |s| && s[p] == '$' && s[p + 1] == '$'
    requires var body := s[p..][2..];
      n <= |body| && !Has(body[..if n < |body| then n + 1 else n], '$', '$')
      && (n < |body| ==> PairAt(body, n, '$', '$'))
    ensures var r := s[p..];
      ScanAt(s, p, flags, lookup) ==
        if n + 2 < |r| then Scan(n + 4, Marked(2, r[2..n + 2], '$', '$'), 0, 0)
        else Scan(|r|, Marked(2, r[2..], '$', '\0'), 0, 0)
  {
    hide Word, MoneyTag, Span, Accepts, LETTERS, MONEY_CHARS, Cut, Kept;
    var r := s[p..];
    AmountLength(r, 0);
    var body := r[2..];
    FirstPairIs(body, '$', '$', n);
    assert body[..n] == r[2..n + 2];
    CutIsKept(body[..n]);
    CutIsKept(body);
  }

  /** A letter, n - 1 letters or NULs, and a dollar sign follow the dollar sign. */
  predicate IsTag(r: bytes, n: nat) {
    && 0 < n && n + 1 < |r| && r[0] == '$' && r[n + 1] == '$'
    && Letter(r[1]) && (forall k :: 1 <= k <= n ==> Letter(r[k]) || r[k] as int == 0)
  }

  lemma LetterIs(c: byte)
    ensures Letter(c) ==> !InAmount(c) && c != '$'
  {
  }

  lemma TagOpens(r: bytes, n: nat)
    requires IsTag(r, n)
    ensures OpensTag(r) && TagLength(r) == n + 2
  {
    hide Accepts, LETTERS, MONEY_CHARS, Letter;
    assert Letter(r[1]);
    AmountLength(r, 0) by { assert !InAmount(r[1]) && r[1] != '$' by { LetterIs(r[1]); } }
    assert r[1] != '$' by { LetterIs(r[1]); }
    forall k | 0 <= k < n ensures Accepts(LETTERS, r[1..][k]) { LettersAre(r[k + 1]); }
    assert !Accepts(LETTERS, '$') by { LettersAre('$'); LetterIs('$'); }
    SpanOf(r[1..], LETTERS, n);
  }

  lemma FirstAtIs(needle: bytes, s: bytes, from: nat, at: nat)
    requires forall k: nat :: from <= k < at && k + |needle| <= |s| ==> !OccursAt(needle, s, k)
    requires at + |needle| <= |s| ==> from <= at && OccursAt(needle, s, at)
    ensures FirstAt(needle, s, from) == if at + |needle| <= |s| then at else |s| + 1
  {
  }

  lemma TagFits(r: bytes, n: nat)
    requires IsTag(r, n)
    ensures n + 2 <= |r|
  {
  }

  /** `$tag$...$tag$`. The closing tag is the first occurrence of the tag at or after the
      tag's own length, counted from the start of the input, among those that end p bytes
      before the end of the input; if that is not behind the opening tag there is none. */
  lemma TaggedStrings(s: bytes, p: nat, flags: Flags, lookup: Lookup, n: nat, at: nat)
    requires p <= |s| && IsTag(s[p..], n)
    requires var tag := s[p..][..n + 2];
      && (forall k: nat :: n + 2 <= k < at && k + n + 2 <= |s| - p ==> !OccursAt(tag, s, k))
      && (at + n + 2 <= |s| - p ==> n + 2 <= at && OccursAt(tag, s, at))
    ensures var r, sc := s[p..], ScanAt(s, p, flags, lookup);
      if p + n + 2 <= at && at + n + 2 <= |s| - p then
        sc == Scan(at + n + 2 - p, Marked(n + 2, s[p + n + 2..at], '$', '$'), 0, 0)
      else sc == Scan(|r|, Marked(n + 2, r[n + 2..], '$', '\0'), 0, 0)
  {
    hide OpensTag, TagLength, ScanHere, FirstAt, OccursAt, IsTag, Cut, Kept;
    var r := s[p..];
    TagOpens(r, n);
    assert n + 2 <= |r| by { TagFits(r, n); }
    var h := s[..|s| - p];
    var tag := r[..n + 2];
    forall k: nat ensures OccursAt(tag, h, k) <==> OccursAt(tag, s, k) && k + n + 2 <= |s| - p {
      OccursInPrefix(tag, s, |s| - p, k);
    }
    FirstAtIs(tag, h, n + 2, at);
    if p + n + 2 <= at && at + n + 2 <= |s| - p { CutIsKept(s[p + n + 2..at]); }
    CutIsKept(r[n + 2..]);
  }

  lemma TagFound(r: bytes)
    requires OpensTag(r) && !InAmount(r[1])
    ensures IsTag(r, Span(r[1..], LETTERS))
  {
    hide Accepts, LETTERS, MONEY_CHARS;
    var n := Span(r[1..], LETTERS);
    forall k | 1 <= k <= n ensures Letter(r[k]) || r[k] as int == 0 {
      assert Accepts(LETTERS, r[1..][k - 1]);
      LettersAre(r[k]);
    }
  }

  /** Any other dollar sign stands alone as a bare word. */
  lemma LoneDollars(s: bytes, p: nat, flags: Flags, lookup: Lookup)
    requires p < |s| && s[p] == '$' && (p + 1 < |s| ==> s[p + 1] != '$' && !InAmount(s[p + 1]))
    requires forall n :: !IsTag(s[p..], n)
    ensures ScanAt(s, p, flags, lookup) == Scan(1, Bare(0, 'n', ['$']), 0, 0)
  {
    hide Accepts, LETTERS, MONEY_CHARS, Word, MoneyTag, IsTag;
    var r := s[p..];
    if |r| > 1 {
      AmountLength(r, 0);
      if OpensTag(r) { TagFound(r); }
    }
  }
}
