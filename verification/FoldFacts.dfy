/** What folding keeps about the tokens it holds. */
module FoldFacts {
  import opened Bytes
  import opened Tokens
  import opened Scanners
  import opened ScannerFacts
  import opened Tokenizer
  import opened FoldRules
  import opened Fold
  import opened FoldRun

  /** A comment can start at p: a dash needs a second dash, a slash needs a star. */
  predicate CanStartComment(s: bytes, p: nat) {
    && p < |s|
    && (s[p] == '-' ==> p + 1 < |s| && s[p + 1] == '-')
    && (s[p] == '/' ==> p + 1 < |s| && s[p + 1] == '*')
  }

  ghost predicate CommentBetween(s: bytes, lo: nat, hi: nat) {
    exists p: nat :: lo <= p < hi && CanStartComment(s, p)
  }

  lemma ScanDashOrSlash(s: bytes, p: nat, flags: Flags, lookup: Lookup)
    requires p < |s|
    ensures s[p] == '-' ==> ScanAt(s, p, flags, lookup) == Dash(s[p..], flags)
    ensures s[p] == '/' ==> ScanAt(s, p, flags, lookup) == Slash(s[p..])
  {
    hide Word, Number, StringCore, MoneyTag, EString, UString, QStringCore, NqString, DigitString, Tick, Var,
         Money, BWord, Operator2, EolComment, Slash, Dash, Hash;
  }

  lemma ScanComment(s: bytes, p: nat, flags: Flags, lookup: Lookup)
    requires p < |s| && ScanAt(s, p, flags, lookup).tok.typ == COMMENT
    ensures CanStartComment(s, p)
  {
    hide ScanAt, EolComment, IndexOf2;
    ScanDashOrSlash(s, p, flags, lookup);
    if p + 1 < |s| { assert s[p..][1] == s[p + 1]; }
  }

  lemma {:induction false} AdvanceComment(job: Job, c: Cursor)
    requires c.src <= |job.s|
    ensures var n := Advance(job, c);
      n.Found? && n.tok.typ == COMMENT ==> CommentBetween(job.s, c.src, n.c.src)
    decreases |job.s| - c.src
  {
    hide ScanAt, Spans, CanStartComment;
    if c.src < |job.s| {
      ScanFollows(job, c);
      var sc := ScanAt(job.s, c.src, job.flags, job.lookup);
      if sc.tok.typ == NUL {
        AdvanceComment(job, c.After(sc));
      } else if sc.tok.typ == COMMENT {
        ScanComment(job.s, c.src, job.flags, job.lookup);
      }
    }
  }

  lemma {:induction false} NextComment(job: Job, c: Cursor)
    requires c.src <= |job.s|
    ensures var n := NextToken(job, c);
      n.Found? && n.tok.typ == COMMENT ==> CommentBetween(job.s, c.src, n.c.src)
  {
    hide StringCore;
    if job.s != [] && c.src == 0 && job.flags.Quoted() {
      StringCoreSound(job.s, job.flags.Delim(), 0);
    } else {
      AdvanceComment(job, c);
    }
  }

  function Pending(f: Folding): nat { if f.comment.typ == COMMENT then 1 else 0 }

  /** The held tokens are as they were read, retypings aside: no comments, in input order
      before position `end`. */
  ghost predicate AsRead(w: seq<Token>, n: nat, end: nat)
    requires n <= |w|
  {
    && (forall i :: 0 <= i < n ==> w[i].typ != COMMENT && w[i].pos + |w[i].val| <= end)
  }

  /** The invariant of the folding loop beyond its bounds: held tokens have types, held
      tokens and the pending comment were all read, and as long as nothing that was read is
      missing the held tokens are the ones read. */
  ghost predicate Held(job: Job, f: Folding)
    requires Inv(job, f)
  {
    && (forall i :: 0 <= i < f.pos ==> f.w[i].typ != NUL)
    && f.pos + Pending(f) <= f.c.tokens
    && (f.pos + Pending(f) == f.c.tokens ==>
          exists end: nat :: AsRead(f.w, f.pos, end)
            && (if Pending(f) == 0 then end <= f.c.src else CommentBetween(job.s, end, f.c.src)))
  }

  /** What holds of the result of folding. */
  ghost predicate Folded(job: Job, o: Outcome)
    requires |o.w| == WINDOW
  {
    && o.n <= MAX_TOKENS + 1 && o.n <= o.c.tokens
    && (forall i :: 0 <= i < o.n ==> o.w[i].typ != NUL)
    && (o.n == MAX_TOKENS + 1 ==> o.w[MAX_TOKENS].typ == EVIL)
    && (o.n == 2 && o.c.tokens == 2 && o.w[1].typ == COMMENT ==>
          CommentBetween(job.s, |o.w[0].val|, |job.s|))
  }

  lemma CommentWider(s: bytes, lo: nat, hi: nat, lo': nat, hi': nat)
    requires CommentBetween(s, lo, hi) && lo' <= lo && hi <= hi'
    ensures CommentBetween(s, lo', hi')
  {
    var p: nat :| lo <= p < hi && CanStartComment(s, p);
    assert lo' <= p < hi' && CanStartComment(s, p);
  }

  lemma FetchHeld(job: Job, f: Folding)
    requires Inv(job, f) && Held(job, f) && f.pos <= MAX_TOKENS && f.more
    ensures Inv(job, Fetch(job, f)) && Held(job, Fetch(job, f))
  {
    hide NextToken, CommentBetween;
    FetchFacts(job, f);
    NextComment(job, f.c);
    var g := Fetch(job, f);
    if f.pos + Pending(f) == f.c.tokens {
      var end: nat :| AsRead(f.w, f.pos, end)
        && (if Pending(f) == 0 then end <= f.c.src else CommentBetween(job.s, end, f.c.src));
      match NextToken(job, f.c)
      case Exhausted(c) =>
        assert AsRead(g.w, g.pos, end);
        if Pending(f) == 1 { CommentWider(job.s, end, f.c.src, end, c.src); }
      case Found(c, t) =>
        if t.typ == COMMENT {
          assert AsRead(g.w, g.pos, end);
          if Pending(f) == 0 { CommentWider(job.s, f.c.src, c.src, end, c.src); }
        } else {
          if Pending(f) == 0 { assert AsRead(g.w, g.pos, c.src); }
        }
    }
  }

  lemma {:induction false} FillHeld(job: Job, f: Folding, n: nat)
    requires Inv(job, f) && Held(job, f)
    ensures Held(job, Fill(job, f, n))
    decreases Potential(job, f)
  {
    hide Fetch, Held;
    if !f.more || f.pos > MAX_TOKENS || f.pos - f.left >= n {
    } else {
      FetchFacts(job, f);
      FetchHeld(job, f);
      FillHeld(job, Fetch(job, f), n);
    }
  }

  /** Rulings only write types that a held token may have. */
  predicate WritesTypes(r: Ruling) {
    match r.edit
    case RetypeLeft(t) => t != NUL && t != COMMENT
    case RetypeRight(t) => t != NUL && t != COMMENT
    case Merge(t, v) => t != NUL && r.drop > 0
    case RightOntoLeft => r.drop > 0
    case ThirdOntoSecond => r.drop > 0
    case Leave => true
  }

  lemma PairRuleTypes(lookup: Lookup, a: Lexeme, b: Lexeme)
    ensures WritesTypes(PairRule(lookup, a, b))
  {
    hide PhraseType;
  }

  lemma TripleRuleTypes(a: Lexeme, b: Lexeme, c: Lexeme)
    ensures WritesTypes(TripleRule(a, b, c))
  {
  }

  lemma ApplyHeld(job: Job, f: Folding, r: Ruling)
    requires Inv(job, f) && Held(job, f) && WritesTypes(r) && r.drop <= f.pos
    requires f.left + 2 <= f.pos && (r.edit == ThirdOntoSecond ==> f.left + 3 <= f.pos)
    requires Inv(job, Apply(f, r))
    ensures Held(job, Apply(f, r))
  {
    hide CommentBetween;
    var g := Apply(f, r);
    if r.drop == 0 && f.pos + Pending(f) == f.c.tokens {
      var end: nat :| AsRead(f.w, f.pos, end)
        && (if Pending(f) == 0 then end <= f.c.src else CommentBetween(job.s, end, f.c.src));
      assert AsRead(g.w, g.pos, end);
    }
  }

  /** Moving `left` or dropping tokens keeps Held. */
  lemma ShrinkHeld(job: Job, f: Folding, g: Folding)
    requires Inv(job, f) && Held(job, f) && Inv(job, g)
    requires g.c == f.c && g.comment == f.comment && g.pos <= f.pos
    requires if g.pos == f.pos then g.w == f.w else forall i :: 0 <= i < g.pos ==> g.w[i].typ != NUL
    ensures Held(job, g)
  {
    hide CommentBetween;
  }

  lemma FinishFolded(job: Job, f: Folding)
    requires Inv(job, f) && Held(job, f)
    ensures Folded(job, Finish(f))
  {
    hide CommentBetween;
    var o := Finish(f);
    if o.n == 2 && o.c.tokens == 2 && o.w[1].typ == COMMENT {
      assert f.pos + Pending(f) == f.c.tokens;
      var end: nat :| AsRead(f.w, f.pos, end)
        && (if Pending(f) == 0 then end <= f.c.src else CommentBetween(job.s, end, f.c.src));
      CommentWider(job.s, end, f.c.src, |f.w[0].val|, |job.s|);
    }
  }

  lemma SqueezeHeld(job: Job, f: Folding)
    requires Inv(job, f) && Held(job, f)
    ensures Inv(job, Squeeze(f)) && Held(job, Squeeze(f))
  {
    ShrinkHeld(job, f, Squeeze(f));
  }

  lemma TripleStageHeld(job: Job, f: Folding)
    requires Inv(job, f) && Held(job, f)
    ensures var r := TripleStage(f);
      r.Next? && Inv(job, r.f) && Held(job, r.f)
  {
    hide TripleRule, Held;
    if f.pos - f.left < 3 {
      ShrinkHeld(job, f, f.(left := f.pos));
    } else {
      var a, b, c := f.w[f.left].Lex(), f.w[f.left + 1].Lex(), f.w[f.left + 2].Lex();
      TripleRuleShape(a, b, c);
      TripleRuleTypes(a, b, c);
      var r := TripleRuling(f);
      ApplyHeld(job, f, r);
      if r.control == GoOn { ShrinkHeld(job, Apply(f, r), Apply(f, r).(left := f.left + 1)); }
    }
  }

  lemma PairStageHeld(job: Job, f: Folding)
    requires Inv(job, f) && Held(job, f) && f.left + 2 <= f.pos
    ensures match PairStage(job, f)
      case Next(g) => Inv(job, g) && Held(job, g)
      case Done(o) => |o.w| == WINDOW && Folded(job, o)
  {
    hide Fill, PairRule, TripleStage;
    PairStageRank(job, f);
    var a, b := f.w[f.left].Lex(), f.w[f.left + 1].Lex();
    PairRuleShape(job.lookup, a, b);
    PairRuleTypes(job.lookup, a, b);
    var r := PairRuling(job, f);
    var g := Apply(f, r);
    ApplyHeld(job, f, r);
    if r.control == GoOn {
      FillHeld(job, g, 3);
      TripleStageHeld(job, Fill(job, g, 3));
    }
  }

  lemma StepHeld(job: Job, f: Folding)
    requires Inv(job, f) && Held(job, f)
    ensures match Step(job, f)
      case Next(g) => Inv(job, g) && Held(job, g)
      case Done(o) => |o.w| == WINDOW && Folded(job, o)
  {
    hide Fill, Held, Folded, Finish;
    StepInv(job, f);
    var g := Squeeze(f);
    SqueezeHeld(job, f);
    if !g.more || g.left >= MAX_TOKENS {
      FinishFolded(job, g);
    } else {
      var h := Fill(job, g, 2);
      FillHeld(job, g, 2);
      if h.pos - h.left < 2 {
        ShrinkHeld(job, h, h.(left := h.pos));
      } else {
        PairStageHeld(job, h);
      }
    }
  }

  lemma {:induction false} RunFolded(job: Job, f: Folding)
    requires Inv(job, f) && Held(job, f)
    ensures Folded(job, Run(job, f))
    decreases Rank(job, f)
  {
    hide Step, Rank, Held, Folded;
    StepInv(job, f);
    StepHeld(job, f);
    match Step(job, f)
    case Next(g) => RunFolded(job, g);
    case Done(_) =>
  }

  lemma {:induction false} FirstTokenFollows(job: Job, c: Cursor)
    requires c.src <= |job.s|
    ensures var n := FirstToken(job, c);
      n.Found? ==> Follows(job, c, n.c.(tokens := c.tokens + 1), n.tok) && n.c.tokens > c.tokens && !Skippable(n.tok)
    decreases |job.s| - c.src
  {
    hide NextToken, Spans, Skippable;
    match NextToken(job, c)
    case Exhausted(_) =>
    case Found(d, t) => if Skippable(t) { FirstTokenFollows(job, d); }
  }

  /** Folding a whole input returns at most five tokens (six only when the last one is evil),
      all with types and none more than were read; and if a comment follows a first token
      with nothing else read, that comment starts in the input beyond the token's length. */
  lemma FoldAllFolded(job: Job, c: Cursor, w: seq<Token>, folds: nat)
    requires c.src <= |job.s| && |w| == WINDOW
    ensures Folded(job, FoldAll(job, c, w, folds))
  {
    hide NextToken, Run, CommentBetween;
    FirstTokenFollows(job, c);
    match FirstToken(job, c)
    case Exhausted(_) =>
    case Found(d, t) =>
      var f := Opening(d, w, t, folds);
      assert AsRead(f.w, 1, d.src);
      RunFolded(job, f);
  }
}
