/** Folding ends: a rank that every round lowers, and the run built on it. Rounds that neither
    read nor drop a token only retype tokens or move `left`, and several of them undo what
    earlier ones did, so the rank is lexicographic (here packed into one number). */
module FoldRun {
  import opened Bytes
  import opened Tokens
  import opened Tokenizer
  import opened FoldRules
  import opened Fold

  /** Retypings that also send `left` back to 0 use up a token of this kind. */
  function Unsettled(l: Lexeme): nat {
    if l.typ == BACKSLASH || (l.typ == BAREWORD && l.HasUnderscore()) then 1 else 0
  }

  /** Retypings under a fixed cursor walk down this scale: KEYWORD, BAREWORD or VARIABLE,
      FUNCTION, the rest. */
  function Scale(typ: byte): nat {
    if typ == KEYWORD then 3
    else if typ == BAREWORD || typ == VARIABLE then 2
    else if typ == FUNCTION then 1
    else 0
  }

  /** Number of unsettled tokens among the first n. */
  function CountUnsettled(w: seq<Token>, n: nat): (k: nat)
    requires n <= |w|
    ensures k <= n
  {
    if n == 0 then 0 else CountUnsettled(w, n - 1) + Unsettled(w[n - 1].Lex())
  }

  function ScaleAt(f: Folding): (k: nat)
    requires f.left + 1 < |f.w|
    ensures k <= 6
  {
    Scale(f.w[f.left].typ) + Scale(f.w[f.left + 1].typ)
  }

  /** The rank: potential, unsettled tokens, distance of `left` from the end, scale. */
  function Rank(job: Job, f: Folding): nat
    requires Inv(job, f)
  {
    ((Potential(job, f) * 7 + CountUnsettled(f.w, f.pos)) * 7 + (MAX_TOKENS + 1 - f.left)) * 7 + ScaleAt(f)
  }

  lemma LowerPotential(job: Job, f: Folding, g: Folding)
    requires Inv(job, f) && Inv(job, g) && Potential(job, g) < Potential(job, f)
    ensures Rank(job, g) < Rank(job, f)
  {
  }

  lemma LowerRest(job: Job, f: Folding, g: Folding)
    requires Inv(job, f) && Inv(job, g) && Potential(job, g) == Potential(job, f)
    requires var u, v := CountUnsettled(f.w, f.pos), CountUnsettled(g.w, g.pos);
      v < u || (v == u && (g.left > f.left || (g.left == f.left && ScaleAt(g) < ScaleAt(f))))
    ensures Rank(job, g) < Rank(job, f)
  {
  }

  lemma {:induction false} CountOfPrefix(w: seq<Token>, v: seq<Token>, n: nat)
    requires n <= |w| && n <= |v| && w[..n] == v[..n]
    ensures CountUnsettled(w, n) == CountUnsettled(v, n)
  {
    if n == 0 {
    } else {
      assert w[n - 1] == w[..n][n - 1] == v[..n][n - 1] == v[n - 1];
      assert w[..n - 1] == w[..n][..n - 1] == v[..n][..n - 1] == v[..n - 1];
      CountOfPrefix(w, v, n - 1);
    }
  }

  /** Retyping one held token changes the count by that token's share. */
  lemma {:induction false} CountAfterUpdate(w: seq<Token>, n: nat, i: nat, t: Token)
    requires i < n <= |w|
    ensures CountUnsettled(w[i := t], n) + Unsettled(w[i].Lex()) == CountUnsettled(w, n) + Unsettled(t.Lex())
  {
    if n > i + 1 { CountAfterUpdate(w, n - 1, i, t); } else { CountOfPrefix(w, w[i := t], i); }
  }

  /** Words whose upper-case form has no underscore have none themselves. */
  lemma NoUnderscore(v: bytes)
    requires forall i :: 0 <= i < |v| ==> Upper(v)[i] != '_'
    ensures '_' !in CStr(v)
  {
    forall i | 0 <= i < |v| ensures v[i] != '_' {
      assert Upper(v)[i] == UpperByte(v[i]);
    }
  }

  /** A pair ruling that drops nothing settles a token or walks down the scale. */
  lemma PairRuleSettles(lookup: Lookup, a: Lexeme, b: Lexeme)
    ensures var r := PairRule(lookup, a, b);
      r.drop == 0 && r.control != Abort ==>
        match r.edit
        case Leave => r.control == GoOn && r.retreat == Stay
        case RetypeLeft(t) =>
          var d := Lexeme(t, a.val);
          && Unsettled(d) <= Unsettled(a)
          && (r.retreat == Restart ==> Unsettled(d) < Unsettled(a))
          && (r.retreat == Stay && r.control == Again ==> Scale(t) < Scale(a.typ))
          && r.retreat != Back
        case RetypeRight(t) =>
          var d := Lexeme(t, b.val);
          && Unsettled(d) <= Unsettled(b)
          && (r.retreat == Restart ==> Unsettled(d) < Unsettled(b))
          && (r.retreat == Stay ==> r.control == Again && Scale(t) < Scale(b.typ))
          && r.retreat != Back
        case _ => false
  {
    hide PhraseType;
    if a.Named("IN") || a.Named("NOT IN") { NoUnderscore(a.val); }
  }

  /** What a ruling without drops does to the count and the scale. */
  lemma SettledCount(f: Folding, r: Ruling, g: Folding)
    requires |f.w| == WINDOW && f.left + 2 <= f.pos <= MAX_TOKENS + 1
    requires r.drop == 0 && g == Apply(f, r)
    requires r.edit.Leave? || r.edit.RetypeLeft? || r.edit.RetypeRight?
    ensures var a, b := f.w[f.left].Lex(), f.w[f.left + 1].Lex();
      match r.edit
      case Leave => g.w == f.w
      case RetypeLeft(t) =>
        && CountUnsettled(g.w, g.pos) + Unsettled(a) == CountUnsettled(f.w, f.pos) + Unsettled(Lexeme(t, a.val))
        && (g.left == f.left ==> ScaleAt(g) + Scale(a.typ) == ScaleAt(f) + Scale(t))
      case RetypeRight(t) =>
        && CountUnsettled(g.w, g.pos) + Unsettled(b) == CountUnsettled(f.w, f.pos) + Unsettled(Lexeme(t, b.val))
        && (g.left == f.left ==> ScaleAt(g) + Scale(b.typ) == ScaleAt(f) + Scale(t))
  {
    match r.edit
    case RetypeLeft(t) => CountAfterUpdate(f.w, f.pos, f.left, f.w[f.left].(typ := t));
    case RetypeRight(t) => CountAfterUpdate(f.w, f.pos, f.left + 1, f.w[f.left + 1].(typ := t));
    case _ =>
  }

  lemma UserIsSettled(a: Lexeme)
    requires a.Named("USER")
    ensures Unsettled(Lexeme(BAREWORD, a.val)) == 0
  {
    assert Upper(a.val) == "USER";
    NoUnderscore(a.val);
  }

  /** A triple ruling that drops nothing settles nothing and leaves the count alone. */
  lemma TripleCount(h: Folding)
    requires |h.w| == WINDOW && h.left + 3 <= h.pos <= MAX_TOKENS + 1
    ensures var r := TripleRuling(h);
      r.control != Again ==> r.drop == 0 && CountUnsettled(Apply(h, r).w, h.pos) <= CountUnsettled(h.w, h.pos)
  {
    hide TripleRule, Unsettled;
    var a, b, c := h.w[h.left].Lex(), h.w[h.left + 1].Lex(), h.w[h.left + 2].Lex();
    TripleRuleShape(a, b, c);
    if TripleRuling(h).edit == RetypeLeft(BAREWORD) {
      UserIsSettled(a);
      CountAfterUpdate(h.w, h.pos, h.left, h.w[h.left].(typ := BAREWORD));
    }
  }

  /** The three-token stage, entered with window g from a pair ruling on f. */
  lemma TripleStageRank(job: Job, f: Folding, g: Folding)
    requires Inv(job, f) && Inv(job, g) && g.pos == f.pos && g.left + 2 <= g.pos && g.c == f.c && g.more == f.more
    requires var u, v := CountUnsettled(f.w, f.pos), CountUnsettled(g.w, g.pos);
      v < u || (v == u && g.left == f.left)
    ensures var r := TripleStage(Fill(job, g, 3));
      r.Next? && Inv(job, r.f) && Rank(job, r.f) < Rank(job, f)
  {
    hide Fill, Rank, TripleRule, Unsettled, CountUnsettled, Edited;
    var h := Fill(job, g, 3);
    FillFacts(job, g, 3);
    var n := TripleStage(h).f;
    if h.pos - h.left < 3 {
      if h == g { LowerRest(job, f, n); } else { LowerPotential(job, f, n); }
    } else {
      TripleRuleShape(h.w[h.left].Lex(), h.w[h.left + 1].Lex(), h.w[h.left + 2].Lex());
      if h != g || TripleRuling(h).control == Again {
        LowerPotential(job, f, n);
      } else {
        TripleCount(h);
        LowerRest(job, f, n);
      }
    }
  }

  lemma PairStageRank(job: Job, f: Folding)
    requires Inv(job, f) && f.left + 2 <= f.pos
    ensures match PairStage(job, f)
      case Next(g) => Inv(job, g) && Rank(job, g) < Rank(job, f)
      case Done(o) => |o.w| == WINDOW && o.n <= MAX_TOKENS + 1 && o.c.src <= |job.s|
  {
    hide Fill, Rank, PairRule, TripleStage;
    var a, b := f.w[f.left].Lex(), f.w[f.left + 1].Lex();
    var r := PairRuling(job, f);
    PairRuleShape(job.lookup, a, b);
    PairRuleSettles(job.lookup, a, b);
    var g := Apply(f, r);
    if r.drop > 0 {
      LowerPotential(job, f, g);
    } else if r.control != Abort {
      SettledCount(f, r, g);
      if r.control == Again {
        LowerRest(job, f, g);
      } else {
        TripleStageRank(job, f, g);
      }
    }
  }

  /** A round keeps the window bounds. */
  lemma StepInv(job: Job, f: Folding)
    requires Inv(job, f)
    ensures var r := Step(job, f);
      match r
      case Next(g) => Inv(job, g) && Rank(job, g) < Rank(job, f)
      case Done(o) => |o.w| == WINDOW && o.n <= MAX_TOKENS + 1 && o.c.src <= |job.s|
  {
    hide Fill, Rank;
    var g := Squeeze(f);
    if !g.more || g.left >= MAX_TOKENS {
    } else {
      var h := Fill(job, g, 2);
      FillFacts(job, g, 2);
      if h.pos - h.left < 2 {
        LowerPotential(job, f, h.(left := h.pos));
      } else {
        PairStageRank(job, h);
        if h != f {
          LowerPotential(job, f, h);
        }
      }
    }
  }

  /** The folding loop. */
  function Run(job: Job, f: Folding): (o: Outcome)
    requires Inv(job, f)
    ensures |o.w| == WINDOW && o.n <= MAX_TOKENS + 1 && o.c.src <= |job.s|
    decreases Rank(job, f)
  {
    hide Step, Rank;
    StepInv(job, f);
    match Step(job, f)
    case Next(g) => Run(job, g)
    case Done(o) => o
  }

  /** Folding goes on round by round, until a round ends it. */
  lemma RoundsFollow(job: Job, f: Folding)
    requires Inv(job, f)
    ensures match Step(job, f)
      case Next(g) => Inv(job, g) && Run(job, f) == Run(job, g)
      case Done(o) => Run(job, f) == o
  {
    hide Step, Rank;
    StepInv(job, f);
  }

  /** Number of rounds the folding loop takes. */
  function Rounds(job: Job, f: Folding): nat
    requires Inv(job, f)
    decreases Rank(job, f)
  {
    hide Step, Rank;
    StepInv(job, f);
    match Step(job, f)
    case Next(g) => 1 + Rounds(job, g)
    case Done(_) => 1
  }

  lemma {:induction false} RoundsWithinRank(job: Job, f: Folding)
    requires Inv(job, f)
    ensures Rounds(job, f) <= Rank(job, f) + 1
    decreases Rank(job, f)
  {
    hide Step, Rank;
    StepInv(job, f);
    match Step(job, f)
    case Next(g) => RoundsWithinRank(job, g);
    case Done(_) =>
  }

  /** Folding takes a number of rounds linear in the length of the input, whatever the
      dictionary says. */
  lemma FoldingIsLinear(job: Job, f: Folding)
    requires Inv(job, f)
    ensures Rounds(job, f) <= 2744 * (|job.s| + 1)
  {
    RoundsWithinRank(job, f);
  }

  /** Leading comments, opening parentheses, type names and unary operators are skipped. */
  predicate Skippable(t: Token) {
    t.typ == COMMENT || t.typ == LEFTPARENS || t.typ == SQLTYPE || t.Lex().IsUnaryOp()
  }

  /** The first token folding keeps. */
  function FirstToken(job: Job, c: Cursor): (n: Tokenizer.Next)
    requires c.src <= |job.s|
    ensures n.c.src <= |job.s|
    decreases |job.s| - c.src
  {
    hide NextToken;
    match NextToken(job, c)
    case Exhausted(d) => Exhausted(d)
    case Found(d, t) => if Skippable(t) then FirstToken(job, d) else Found(d, t)
  }

  /** The loop variables once the first token is in the window. */
  function Opening(c: Cursor, w: seq<Token>, t: Token, folds: nat): Folding
    requires |w| == WINDOW
  {
    Folding(c, w[0 := t], 1, 0, true, CLEAR, folds)
  }

  /** `libinjection_sqli_fold`. */
  function FoldAll(job: Job, c: Cursor, w: seq<Token>, folds: nat): (o: Outcome)
    requires c.src <= |job.s| && |w| == WINDOW
    ensures |o.w| == WINDOW && o.n <= MAX_TOKENS + 1 && o.c.src <= |job.s|
  {
    match FirstToken(job, c)
    case Exhausted(d) => Outcome(d, if job.s == [] then w else w[0 := CLEAR], folds, 0)
    case Found(d, t) => Run(job, Opening(d, w, t, folds))
  }
}
