/** From folded tokens to a verdict: the fingerprint, the table of known attacks, the filter
    for false positives, and the contexts an input is tried in. */
module Verdict {
  import opened Bytes
  import opened Tokens
  import opened Keywords
  import opened Tokenizer
  import opened Fold
  import opened FoldRun
  import opened FoldFacts
  import opened Dialects

  /** The state a pass leaves behind. */
  datatype Parsed = Parsed(c: Cursor, w: seq<Token>, folds: nat, fp: bytes)

  const EMPTY_WINDOW := [CLEAR, CLEAR, CLEAR, CLEAR, CLEAR, CLEAR, CLEAR, CLEAR]

  function Types(w: seq<Token>, n: nat): (fp: bytes)
    requires n <= |w|
    ensures |fp| == n && forall i {:trigger fp[i]} :: 0 <= i < n ==> fp[i] == w[i].typ
  {
    if n == 0 then [] else Types(w, n - 1) + [w[n - 1].typ]
  }

  /** An empty back-quoted word that is never closed: a PHP comment in disguise. */
  predicate IsTickComment(t: Token) {
    t.typ == BAREWORD && t.strOpen == '`' && t.val == [] && t.strClose == NUL
  }

  /** The window with a disguised comment at its end unmasked. */
  function Unmasked(w: seq<Token>, n: nat): (v: seq<Token>)
    requires n <= |w|
    ensures |v| == |w|
  {
    if n > 2 && IsTickComment(w[n - 1]) then w[n - 1 := w[n - 1].(typ := COMMENT)] else w
  }

  /** The window and fingerprint of an input that cannot be parsed. */
  function Unparsable(w: seq<Token>): (v: seq<Token>)
    requires |w| == WINDOW
    ensures |v| == WINDOW
  {
    w[0 := w[0].(typ := EVIL, val := [EVIL])][1 := w[1].(typ := NUL)]
  }

  /** `libinjection_sqli_fingerprint`, which starts from a zeroed state. */
  function Fingerprint(job: Job): (p: Parsed)
    ensures |p.w| == WINDOW
  {
    var o := FoldAll(job, Tokenizer.START, EMPTY_WINDOW, 0);
    var w := Unmasked(o.w, o.n);
    var fp := Types(w, o.n);
    if EVIL in fp then Parsed(o.c, Unparsable(w), o.folds, [EVIL]) else Parsed(o.c, w, o.folds, fp)
  }

  /** A fingerprint is "X", or at most five types none of which is NUL or 'X'. */
  lemma FingerprintShape(job: Job)
    ensures var fp := Fingerprint(job).fp;
      fp == [EVIL] || (|fp| <= MAX_TOKENS && NUL !in fp && EVIL !in fp)
  {
    hide FoldAll;
    FoldAllFolded(job, Tokenizer.START, EMPTY_WINDOW, 0);
    var o := FoldAll(job, Tokenizer.START, EMPTY_WINDOW, 0);
    var fp := Types(Unmasked(o.w, o.n), o.n);
    if o.n == MAX_TOKENS + 1 { assert fp[MAX_TOKENS] == EVIL; }
  }

  /** `libinjection_sqli_blacklist`: the fingerprint is in the table of known attacks. */
  predicate Blacklisted(table: seq<Keyword>, fp: bytes) {
    fp != [] && TypeOf(table, ['0'] + Upper(fp)) == FINGERPRINT
  }

  /** The bytes the false-positive filter reads behind a number token n bytes long exist. */
  predicate ReadableAfter(s: bytes, n: nat) {
    n < |s| && (s[n] == '/' || s[n] == '-' ==> n + 1 < |s|)
  }

  /** Every read the filter makes in the input is inside the input. */
  predicate Readable(s: bytes, p: Parsed) {
    && |p.w| == WINDOW
    && (|p.fp| == 2 && p.c.tokens <= 2 && p.w[1].typ == COMMENT ==> ReadableAfter(s, |p.w[0].val|))
  }

  predicate EndsNumber(s: bytes, n: nat)
    requires ReadableAfter(s, n)
  {
    || Signed(s[n]) <= 32
    || (s[n] == '/' && s[n + 1] == '*')
    || (s[n] == '-' && s[n + 1] == '-')
  }

  predicate PairIsAttack(s: bytes, p: Parsed)
    requires Readable(s, p) && |p.fp| == 2
  {
    var a, b := p.w[0], p.w[1];
    if p.fp[1] == UNION then p.c.tokens != 2
    else if b.ValAt(0) == '#' then false
    else if a.typ == BAREWORD && b.typ == COMMENT && b.ValAt(0) != '/' then false
    else if a.typ == NUMBER && b.typ == COMMENT && b.ValAt(0) == '/' then true
    else if a.typ == NUMBER && b.typ == COMMENT then p.c.tokens > 2 || EndsNumber(s, |a.val|)
    else !(|b.val| > 2 && b.val[0] == '-')
  }

  /** An input that closes a string it did not open and opens one it does not close. */
  predicate StraddlesStrings(p: Parsed)
    requires |p.w| == WINDOW
  {
    p.w[0].strOpen == NUL && p.w[2].strClose == NUL && p.w[0].strClose == p.w[2].strOpen
  }

  predicate TripleIsAttack(p: Parsed)
    requires |p.w| == WINDOW
  {
    if p.fp == "sos" || p.fp == "s&s" then StraddlesStrings(p)
    else if p.fp == "s&n" || p.fp == "n&1" || p.fp == "1&1" || p.fp == "1&v" || p.fp == "1&s" then p.c.tokens != 3
    else if p.w[1].typ == KEYWORD then |p.w[1].val| >= 5 && Upper(p.w[1].val[..4]) == "INTO"
    else true
  }

  const SP_PASSWORD: bytes := ['s', 'p', '_', 'p', 'a', 's', 's', 'w', 'o', 'r', 'd']

  /** `libinjection_sqli_not_whitelist`. */
  predicate NotWhitelisted(s: bytes, p: Parsed)
    requires Readable(s, p)
  {
    || (|p.fp| > 1 && p.fp[|p.fp| - 1] == COMMENT && FirstAt(SP_PASSWORD, s, 0) <= |s|)
    || (match |p.fp|
        case 2 => PairIsAttack(s, p)
        case 3 => TripleIsAttack(p)
        case _ => true)
  }

  /** `libinjection_sqli_check_fingerprint` on the state a pass leaves behind. */
  predicate IsAttack(table: seq<Keyword>, s: bytes, p: Parsed)
    requires Readable(s, p)
  {
    Blacklisted(table, p.fp) && NotWhitelisted(s, p)
  }

  /** The filter never reads outside the input, although it indexes the input by the length
      of the first token and not by its position. */
  lemma FilterReadsInside(job: Job)
    ensures Readable(job.s, Fingerprint(job))
  {
    hide FoldAll;
    FoldAllFolded(job, Tokenizer.START, EMPTY_WINDOW, 0);
    var o := FoldAll(job, Tokenizer.START, EMPTY_WINDOW, 0);
    var p := Fingerprint(job);
    if |p.fp| == 2 && p.c.tokens <= 2 && p.w[1].typ == COMMENT {
      assert CommentBetween(job.s, |o.w[0].val|, |job.s|);
    }
  }

  /** The verdict on one input in one context, a function of the two alone. */
  predicate Detects(table: seq<Keyword>, s: bytes, flags: Flags) {
    var job := Job(s, flags, Dictionary(table));
    FilterReadsInside(job);
    IsAttack(table, s, Fingerprint(job))
  }

  /** The verdict on an input: some context that applies to it detects an attack. */
  predicate IsSqli(table: seq<Keyword>, s: bytes) {
    || Detects(table, s, NONE_ANSI)
    || Detects(table, s, NONE_MYSQL)
    || ('\'' in s && (Detects(table, s, SINGLE_ANSI) || Detects(table, s, SINGLE_MYSQL)))
    || ('"' in s && Detects(table, s, DOUBLE_MYSQL))
  }

  /** `reparse_as_mysql`. */
  predicate ReparseAsMysql(p: Parsed) { p.c.ddx != 0 || p.c.hash != 0 }

  /** Skipping the MySQL pass loses nothing: without the marks that make the two dialects
      differ it would end in the same state, fingerprint and verdict included. */
  lemma ReparseLosesNothing(a: Job, m: Job)
    requires Twins(a, m)
    ensures !ReparseAsMysql(Fingerprint(a)) ==> Fingerprint(m) == Fingerprint(a)
  {
    hide FoldAll, Unmasked, Unparsable;
    FoldTwins(a, m, Tokenizer.START, EMPTY_WINDOW, 0);
  }

  /** An empty input is never an attack. */
  lemma EmptyIsHarmless(table: seq<Keyword>, flags: Flags)
    ensures !Detects(table, [], flags)
  {
    hide NextToken, Run, NotWhitelisted, TypeOf;
    var job := Job([], flags, Dictionary(table));
    FirstTokenFollows(job, Tokenizer.START);
    assert FoldAll(job, Tokenizer.START, EMPTY_WINDOW, 0).n == 0;
  }
}
