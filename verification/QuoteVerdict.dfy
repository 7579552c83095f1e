/** Quoted contexts against the input with the quote written in front: the fingerprint is the
    same; the verdict is the same except for one family of fingerprints. */
module QuoteVerdict {
  import opened Bytes
  import opened Tokens
  import opened Keywords
  import opened Tokenizer
  import opened Fold
  import opened FoldRun
  import opened Verdict
  import opened QuoteContext

  /** What two passes that shadow each other leave behind. */
  ghost predicate ShadowParsed(q: byte, p: Parsed, r: Parsed) {
    && r.fp == p.fp && r.c == OneOn(p.c) && |p.w| == |r.w| == WINDOW && |p.fp| <= WINDOW
    && (p.fp == [EVIL] || Same(q, p.w, r.w, |p.fp|))
  }

  lemma {:induction false} SameTypes(q: byte, w: seq<Token>, v: seq<Token>, n: nat)
    requires n <= |w| == |v| && (n > 0 ==> Same(q, w, v, n))
    ensures Types(w, n) == Types(v, n)
  {
    if n <= 1 {
    } else {
      SameTypes(q, w, v, n - 1);
    }
  }

  lemma SameTick(t: Token, u: Token)
    requires u == t.Moved(1)
    ensures IsTickComment(t) == IsTickComment(u)
  {
  }

  /** For every input on which the scanner meets no tagged string that slips, a quoted context
      yields the fingerprint of the quote and the input in the unquoted context. */
  lemma QuoteSimulation(a: Job, b: Job, q: byte)
    requires Opens(a, b, q) && !Slips(a)
    ensures ShadowParsed(q, Fingerprint(a), Fingerprint(b))
  {
    hide FoldAll, Opens, Slips, IsTickComment, Unparsable;
    FoldShift(a, b, q);
    var o, p := FoldAll(a, Tokenizer.START, EMPTY_WINDOW, 0), FoldAll(b, Tokenizer.START, EMPTY_WINDOW, 0);
    var w, v := Unmasked(o.w, o.n), Unmasked(p.w, p.n);
    if o.n > 2 { SameTick(o.w[o.n - 1], p.w[o.n - 1]); }
    assert Same(q, w, v, o.n);
    SameTypes(q, w, v, o.n);
  }

  /** No quote starts the word the filter looks for. */
  lemma NoPasswordAtQuote(s: bytes, q: byte)
    requires q == '\'' || q == '"'
    ensures !OccursAt(SP_PASSWORD, [q] + s, 0)
  {
    var s2 := [q] + s;
    if |SP_PASSWORD| <= |s2| { assert s2[0..0 + |SP_PASSWORD|][0] == s2[0] == q != SP_PASSWORD[0]; }
  }

  lemma SamePassword(s: bytes, q: byte)
    requires q == '\'' || q == '"'
    ensures FirstAt(SP_PASSWORD, s, 0) <= |s| <==> FirstAt(SP_PASSWORD, [q] + s, 0) <= |s| + 1
  {
    hide FirstAt, OccursAt, SP_PASSWORD;
    var s2 := [q] + s;
    var i, j := FirstAt(SP_PASSWORD, s, 0), FirstAt(SP_PASSWORD, s2, 0);
    OccursShifted(SP_PASSWORD, s, q, i);
    NoPasswordAtQuote(s, q);
    if j > 0 { OccursShifted(SP_PASSWORD, s, q, j - 1); }
  }

  /** The input closes a string it did not open around an operator, and that is an attack. */
  predicate SplitsAString(table: seq<Keyword>, p: Parsed)
    requires |p.w| == WINDOW
  {
    Blacklisted(table, p.fp) && (p.fp == "sos" || p.fp == "s&s") && StraddlesStrings(p)
  }

  /** The filter on two passes that shadow each other. */
  lemma SameFilter(s: bytes, q: byte, p: Parsed, r: Parsed)
    requires q == '\'' || q == '"'
    requires ShadowParsed(q, p, r) && Readable(s, p) && Readable([q] + s, r) && p.fp == Types(p.w, |p.fp|)
    requires p.fp != [EVIL]
    ensures |p.fp| == 2 ==> PairIsAttack(s, p) == PairIsAttack([q] + s, r)
    ensures |p.fp| == 3 && p.fp != "sos" && p.fp != "s&s" ==> TripleIsAttack(p) == TripleIsAttack(r)
    ensures |p.fp| == 3 && (p.fp == "sos" || p.fp == "s&s") ==> !TripleIsAttack(r)
  {
    hide EndsNumber;
  }

  lemma SameAttack(table: seq<Keyword>, s: bytes, q: byte, p: Parsed, r: Parsed)
    requires q == '\'' || q == '"'
    requires ShadowParsed(q, p, r) && Readable(s, p) && Readable([q] + s, r)
    requires p.fp == [EVIL] || p.fp == Types(p.w, |p.fp|)
    ensures IsAttack(table, s, p) == (IsAttack(table, [q] + s, r) || SplitsAString(table, p))
    ensures !(IsAttack(table, [q] + s, r) && SplitsAString(table, p))
  {
    hide FirstAt, PairIsAttack, Blacklisted, Readable, Same;
    SamePassword(s, q);
    if p.fp != [EVIL] { SameFilter(s, q, p, r); }
    if p.fp == "sos" || p.fp == "s&s" { assert p.fp[|p.fp| - 1] == 's'; }
  }

  lemma OpensQuote(a: Job, b: Job, q: byte)
    requires Opens(a, b, q)
    ensures q == '\'' || q == '"'
  {
  }

  lemma FingerprintTypes(job: Job)
    ensures var p := Fingerprint(job);
      |p.fp| <= WINDOW && (p.fp != [EVIL] ==> p.fp == Types(p.w, |p.fp|))
  {
    hide FoldAll;
    FingerprintShape(job);
  }

  /** The quoted context detects what the unquoted one detects on the quoted input, and in
      addition exactly the inputs that split a string, which the real quote hides. */
  lemma QuoteVerdicts(table: seq<Keyword>, s: bytes, q: byte, quoted: Flags, plain: Flags)
    requires Opens(Job(s, quoted, Dictionary(table)), Job([q] + s, plain, Dictionary(table)), q)
    requires !Slips(Job(s, quoted, Dictionary(table)))
    ensures var split := SplitsAString(table, Fingerprint(Job(s, quoted, Dictionary(table))));
      && Detects(table, s, quoted) == (Detects(table, [q] + s, plain) || split)
      && (Detects(table, s, quoted) == Detects(table, [q] + s, plain) <==> !split)
  {
    hide Fingerprint, Opens, Slips, Readable, ShadowParsed, IsAttack, SplitsAString, Types;
    var a, b := Job(s, quoted, Dictionary(table)), Job([q] + s, plain, Dictionary(table));
    QuoteSimulation(a, b, q);
    OpensQuote(a, b, q);
    FilterReadsInside(a);
    FilterReadsInside(b);
    FingerprintTypes(a);
    SameAttack(table, s, q, Fingerprint(a), Fingerprint(b));
  }
}
