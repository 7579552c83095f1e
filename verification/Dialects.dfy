/** The two dialects. A pass in the ANSI dialect that meets no hash sign and no bare double
    dash goes through exactly the states a pass in the MySQL dialect goes through. */
module Dialects {
  import opened Bytes
  import opened Tokens
  import opened Scanners
  import opened ScannerFacts
  import opened Tokenizer
  import opened FoldRules
  import opened Fold
  import opened FoldRun

  /** The same input and dictionary in the same quote context, ANSI and MySQL. */
  ghost predicate Twins(a: Job, m: Job) {
    && a.s == m.s && a.lookup == m.lookup
    && a.flags.ansi && !a.flags.mysql && m.flags.mysql && !m.flags.ansi
    && a.flags.quoteSingle == m.flags.quoteSingle && a.flags.quoteDouble == m.flags.quoteDouble
  }

  /** Nothing was added to the comment counters between c and d. */
  predicate Quiet(c: Cursor, d: Cursor) { c.ddx == d.ddx && c.hash == d.hash }

  predicate Grown(c: Cursor, d: Cursor) { c.ddx <= d.ddx && c.hash <= d.hash }

  lemma ScanTwins(a: Job, m: Job, p: nat)
    requires Twins(a, m) && p < |a.s|
    ensures var sc := ScanAt(a.s, p, a.flags, a.lookup);
      sc.ddx == 0 && sc.hash == 0 ==> ScanAt(m.s, p, m.flags, m.lookup) == sc
  {
    hide Word, Number, StringCore, MoneyTag, EString, UString, QStringCore, NqString, DigitString, Tick,
         Var, Money, BWord, Operator2, Backslash, EolComment, Slash, Plain;
  }

  lemma {:induction false} AdvanceTwins(a: Job, m: Job, c: Cursor)
    requires Twins(a, m) && c.src <= |a.s|
    ensures var n := Advance(a, c);
      Grown(c, n.c) && (Quiet(c, n.c) ==> Advance(m, c) == n)
    decreases |a.s| - c.src
  {
    hide ScanAt, Spans;
    if c.src == |a.s| {
    } else {
      ScanFollows(a, c);
      ScanTwins(a, m, c.src);
      var sc := ScanAt(a.s, c.src, a.flags, a.lookup);
      if sc.tok.typ == NUL { AdvanceTwins(a, m, c.After(sc)); }
    }
  }

  lemma NextTwins(a: Job, m: Job, c: Cursor)
    requires Twins(a, m) && c.src <= |a.s|
    ensures var n := NextToken(a, c);
      Grown(c, n.c) && (Quiet(c, n.c) ==> NextToken(m, c) == n)
  {
    hide StringCore, Advance;
    AdvanceTwins(a, m, c);
  }

  lemma FetchTwins(a: Job, m: Job, f: Folding)
    requires Twins(a, m) && Inv(a, f) && f.pos <= MAX_TOKENS
    ensures var g := Fetch(a, f);
      Grown(f.c, g.c) && (Quiet(f.c, g.c) ==> Fetch(m, f) == g)
  {
    hide NextToken;
    NextTwins(a, m, f.c);
  }

  lemma {:induction false} FillTwins(a: Job, m: Job, f: Folding, n: nat)
    requires Twins(a, m) && Inv(a, f)
    ensures var g := Fill(a, f, n);
      Grown(f.c, g.c) && (Quiet(f.c, g.c) ==> Fill(m, f, n) == g)
    decreases Potential(a, f)
  {
    hide Fetch;
    if !f.more || f.pos > MAX_TOKENS || f.pos - f.left >= n {
    } else {
      FetchFacts(a, f);
      FetchTwins(a, m, f);
      FillTwins(a, m, Fetch(a, f), n);
    }
  }

  function CursorOf(r: Round): Cursor {
    match r case Next(f) => f.c case Done(o) => o.c
  }

  lemma TripleStageCursor(f: Folding)
    requires |f.w| == WINDOW && f.left <= f.pos <= MAX_TOKENS + 1
    ensures CursorOf(TripleStage(f)) == f.c
  {
  }

  lemma PairStageTwins(a: Job, m: Job, f: Folding)
    requires Twins(a, m) && Inv(a, f) && f.left + 2 <= f.pos
    ensures var r := PairStage(a, f);
      Grown(f.c, CursorOf(r)) && (Quiet(f.c, CursorOf(r)) ==> PairStage(m, f) == r)
  {
    hide Fill, PairRule, TripleRule;
    PairRuleShape(a.lookup, f.w[f.left].Lex(), f.w[f.left + 1].Lex());
    var r := PairRuling(a, f);
    if r.control == GoOn {
      var g := Apply(f, r);
      FillTwins(a, m, g, 3);
      TripleStageCursor(Fill(a, g, 3));
    }
  }

  lemma StepTwins(a: Job, m: Job, f: Folding)
    requires Twins(a, m) && Inv(a, f)
    ensures var r := Step(a, f);
      Grown(f.c, CursorOf(r)) && (Quiet(f.c, CursorOf(r)) ==> Step(m, f) == r)
  {
    hide Fill, PairStage;
    var g := Squeeze(f);
    if g.more && g.left < MAX_TOKENS {
      FillTwins(a, m, g, 2);
      var h := Fill(a, g, 2);
      if h.pos - h.left >= 2 { PairStageTwins(a, m, h); }
    }
  }

  lemma {:induction false} RunTwins(a: Job, m: Job, f: Folding)
    requires Twins(a, m) && Inv(a, f)
    ensures var o := Run(a, f);
      Grown(f.c, o.c) && (Quiet(f.c, o.c) ==> Run(m, f) == o)
    decreases Rank(a, f)
  {
    hide Step, Rank;
    StepInv(a, f);
    StepInv(m, f);
    StepTwins(a, m, f);
    match Step(a, f)
    case Next(g) => RunTwins(a, m, g);
    case Done(_) =>
  }

  lemma {:induction false} FirstTokenTwins(a: Job, m: Job, c: Cursor)
    requires Twins(a, m) && c.src <= |a.s|
    ensures var n := FirstToken(a, c);
      Grown(c, n.c) && (Quiet(c, n.c) ==> FirstToken(m, c) == n)
    decreases |a.s| - c.src
  {
    hide NextToken, Skippable;
    NextTwins(a, m, c);
    match NextToken(a, c)
    case Exhausted(_) =>
    case Found(d, t) => if Skippable(t) { FirstTokenTwins(a, m, d); }
  }

  /** A quiet ANSI pass is a MySQL pass: same tokens, same counters, same result. */
  lemma FoldTwins(a: Job, m: Job, c: Cursor, w: seq<Token>, folds: nat)
    requires Twins(a, m) && c.src <= |a.s| && |w| == WINDOW
    ensures var o := FoldAll(a, c, w, folds);
      Grown(c, o.c) && (Quiet(c, o.c) ==> FoldAll(m, c, w, folds) == o)
  {
    hide FirstToken, Run;
    FirstTokenTwins(a, m, c);
    match FirstToken(a, c)
    case Exhausted(_) =>
    case Found(d, t) => RunTwins(a, m, Opening(d, w, t, folds));
  }
}
