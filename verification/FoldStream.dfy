/** Folding against the stream of tokens: what it reads, where it starts, and what becomes of
    the comment it ends with. */
module FoldStream {
  import opened Tokens
  import opened Tokenizer
  import opened FoldRules
  import opened Fold
  import opened FoldRun
  import opened FoldFacts
  import opened FoldLaws
  import opened Verdict

  /** All tokens of the input. */
  function Stream(job: Job): seq<Token> { AllTokens(job, Tokenizer.START) }

  /** c stands behind the first c.tokens tokens of the input. */
  predicate OnStream(job: Job, c: Cursor) {
    && c.src <= |job.s| && c.tokens <= |Stream(job)|
    && AllTokens(job, c) == Stream(job)[c.tokens..]
  }

  lemma NothingBehind(job: Job, c: Cursor)
    requires c.src == |job.s|
    requires job.s == [] ==> c.src == 0
    ensures AllTokens(job, c) == []
  {
  }

  lemma NextOnStream(job: Job, c: Cursor)
    requires OnStream(job, c)
    ensures match NextToken(job, c)
      case Found(d, t) =>
        c.tokens < |Stream(job)| && OnStream(job, d) && d.tokens == c.tokens + 1 && t == Stream(job)[c.tokens]
      case Exhausted(d) => OnStream(job, d) && d.tokens == c.tokens == |Stream(job)|
  {
    hide NextToken, Stream;
    var ts := Stream(job);
    match NextToken(job, c)
    case Found(d, t) =>
      assert AllTokens(job, c) == [t] + AllTokens(job, d);
      assert ts[c.tokens..][0] == t && ts[c.tokens..][1..] == AllTokens(job, d);
      assert ts[c.tokens..][1..] == ts[c.tokens + 1..];
    case Exhausted(d) =>
      assert AllTokens(job, c) == [];
      NothingBehind(job, d);
  }

  /** Comments, opening parentheses, type names and signs do not start a row. */
  predicate Skipped(t: Token) { t.typ == 'c' || t.typ == '(' || t.typ == 't' || Sign(t.Lex()) }

  lemma SkippedIs(t: Token)
    ensures Skippable(t) <==> Skipped(t)
  {
    hide Sign;
    Signs(t.Lex());
  }

  lemma {:induction false} FirstOnStream(job: Job, c: Cursor)
    requires OnStream(job, c)
    ensures var n, ts := FirstToken(job, c), Stream(job);
      && OnStream(job, n.c) && c.tokens <= n.c.tokens
      && (n.Exhausted? ==> n.c.tokens == |ts| && forall i :: c.tokens <= i < |ts| ==> Skipped(ts[i]))
      && (n.Found? ==>
            && c.tokens < n.c.tokens && n.tok == ts[n.c.tokens - 1] && !Skipped(n.tok)
            && forall i :: c.tokens <= i < n.c.tokens - 1 ==> Skipped(ts[i]))
    decreases |job.s| - c.src
  {
    hide NextToken, Skippable, Skipped, Stream;
    NextOnStream(job, c);
    match NextToken(job, c)
    case Exhausted(_) =>
    case Found(d, t) =>
      SkippedIs(t);
      if Skippable(t) { FirstOnStream(job, d); }
  }

  /** Only the first token that is not skipped has been kept. */
  predicate Opened(ts: seq<Token>, f: Folding) {
    && 0 < f.c.tokens <= |ts| && Row(f) == [ts[f.c.tokens - 1]] && f.pos == 1 && f.left == 0
    && f.more && f.comment.typ as int == 0 && f.folds == 0
    && !Skipped(ts[f.c.tokens - 1]) && forall i :: 0 <= i < f.c.tokens - 1 ==> Skipped(ts[i])
  }

  lemma AtBegin(job: Job)
    ensures OnStream(job, Tokenizer.START)
  {
    assert Stream(job)[0..] == Stream(job);
  }

  /** The row folding starts with: the first token that is not skipped, alone. Without one
      nothing is returned. */
  lemma FoldStarts(job: Job)
    ensures var ts, o := Stream(job), FoldAll(job, Tokenizer.START, EMPTY_WINDOW, 0);
      if forall i :: 0 <= i < |ts| ==> Skipped(ts[i]) then o.n == 0 && o.c.tokens == |ts|
      else exists f :: Inv(job, f) && o == Run(job, f) && OnStream(job, f.c) && Opened(ts, f)
  {
    hide FirstToken, Run, Skipped, Stream;
    assert OnStream(job, Tokenizer.START) by { AtBegin(job); }
    FirstOnStream(job, Tokenizer.START);
    var n := FirstToken(job, Tokenizer.START);
    if n.Found? {
      var f := Opening(n.c, EMPTY_WINDOW, n.tok, 0);
      assert Inv(job, f) && Opened(Stream(job), f);
    }
  }

  // ----- what a round reads

  /** The tokens that are no comments. */
  function Solid(ts: seq<Token>): seq<Token> {
    if ts == [] then [] else (if ts[0].typ == 'c' then [] else [ts[0]]) + Solid(ts[1..])
  }

  /** The state of reading: where on the stream, and the last comment read if nothing but
      comments came behind it. */
  ghost predicate Reading(job: Job, f: Folding) {
    && Inv(job, f) && OnStream(job, f.c) && 0 < f.c.tokens
    && (!f.more ==> f.c.tokens == |Stream(job)|)
    && (f.comment.typ == 'c' <==> Stream(job)[f.c.tokens - 1].typ == 'c')
    && (f.comment.typ == 'c' ==> f.comment == Stream(job)[f.c.tokens - 1])
  }

  predicate Enough(pos: nat, left: nat, n: nat) { pos >= left + n || pos > 5 }

  lemma SolidGrows(ts: seq<Token>, i: nat, j: nat)
    requires i <= j <= |ts|
    ensures i < j ==>
      Solid(ts[i..j]) == (if ts[i].typ == 'c' then [] else [ts[i]]) + Solid(ts[i + 1..j])
    ensures i == j ==> Solid(ts[i..j]) == []
  {
    if i < j { assert ts[i..j][1..] == ts[i + 1..j]; }
  }

  lemma FetchReads(job: Job, f: Folding)
    requires Reading(job, f) && f.pos <= 5 && f.more
    ensures var g, ts := Fetch(job, f), Stream(job);
      && Reading(job, g) && g.left == f.left
      && (if f.c.tokens == |ts| then !g.more && g.c.tokens == |ts| else g.more && g.c.tokens == f.c.tokens + 1)
      && Row(g) == Row(f) + Solid(ts[f.c.tokens..g.c.tokens]) && g.pos == |Row(g)|
  {
    hide NextToken, Stream, AllTokens, Solid;
    FetchFacts(job, f);
    NextOnStream(job, f.c);
    var g, ts := Fetch(job, f), Stream(job);
    SolidGrows(ts, f.c.tokens, g.c.tokens);
    if g.c.tokens > f.c.tokens { SolidGrows(ts, f.c.tokens + 1, g.c.tokens); }
  }

  /** g is f after reading just so many tokens of the stream that enough are held, comments not
      counted, or after reading to its end. */
  ghost predicate ReadsEnough(job: Job, f: Folding, g: Folding, n: nat) {
    var ts, from, to := Stream(job), f.c.tokens, g.c.tokens;
    && from <= to <= |ts| && g.left == f.left && g.pos == |Row(g)|
    && Row(g) == Row(f) + Solid(ts[from..to])
    && (!f.more ==> to == from && !g.more)
    && (g.more ==> Enough(g.pos, f.left, n))
    && (f.more && !g.more ==> !Enough(g.pos, f.left, n))
    && (f.more && from < to ==> !Enough(f.pos + |Solid(ts[from..to - 1])|, f.left, n))
  }

  lemma ReadingInv(job: Job, f: Folding)
    requires Reading(job, f)
    ensures Inv(job, f) && f.c.tokens <= |Stream(job)|
  {
  }

  lemma SolidSplits(ts: seq<Token>, i: nat, m: nat, j: nat)
    requires i <= m <= i + 1 && m <= j <= |ts|
    ensures Solid(ts[i..j]) == Solid(ts[i..m]) + Solid(ts[m..j])
  {
    hide Solid;
    SolidGrows(ts, i, m);
    SolidGrows(ts, i, j);
    SolidGrows(ts, m, m);
    if m == i + 1 { SolidGrows(ts, i + 1, m); }
  }

  /** One token read, and then enough. */
  lemma OneMore(job: Job, f: Folding, h: Folding, g: Folding, n: nat)
    requires f.pos == |Row(f)| && f.more && !Enough(f.pos, f.left, n) && h.left == f.left
    requires f.c.tokens <= h.c.tokens <= f.c.tokens + 1 && h.c.tokens <= |Stream(job)|
    requires h.more <==> f.c.tokens < h.c.tokens
    requires h.pos == |Row(h)| && Row(h) == Row(f) + Solid(Stream(job)[f.c.tokens..h.c.tokens])
    requires ReadsEnough(job, h, g, n)
    ensures ReadsEnough(job, f, g, n)
  {
    hide Solid, Row, Stream;
    var ts, from, mid, to := Stream(job), f.c.tokens, h.c.tokens, g.c.tokens;
    SolidSplits(ts, from, mid, to);
    SolidGrows(ts, from, from);
    if mid < to { SolidSplits(ts, from, mid, to - 1); }
  }

  lemma NoneNeeded(job: Job, f: Folding, n: nat)
    requires Reading(job, f) && (!f.more || Enough(f.pos, f.left, n))
    ensures ReadsEnough(job, f, f, n)
  {
    hide Reading, Stream;
    ReadingInv(job, f);
    assert Row(f) + Solid(Stream(job)[f.c.tokens..f.c.tokens]) == Row(f);
  }

  /** How far the token loops read. */
  lemma {:induction false} FillReads(job: Job, f: Folding, n: nat)
    requires Reading(job, f)
    ensures Reading(job, Fill(job, f, n)) && ReadsEnough(job, f, Fill(job, f, n), n)
    decreases Potential(job, f)
  {
    hide Fetch, Reading, Stream, ReadsEnough, Solid;
    ReadingInv(job, f);
    if !f.more || f.pos > 5 || f.pos - f.left >= n {
      NoneNeeded(job, f, n);
    } else {
      FetchFacts(job, f);
      FetchReads(job, f);
      FillReads(job, Fetch(job, f), n);
      OneMore(job, f, Fetch(job, f), Fill(job, f, n), n);
    }
  }

  // ----- the comment at the end

  /** The dictionary has no words or phrases of the type of comments. */
  ghost predicate NoCommentWords(lookup: Lookup) { forall v :: lookup(WordLookup, v) != 'c' }

  predicate NoComments(w: seq<Token>, n: nat)
    requires n <= |w|
  {
    forall i :: 0 <= i < n ==> w[i].typ != 'c'
  }

  /** What holds between rounds: a pending comment means that the input is used up. */
  ghost predicate Between(job: Job, f: Folding) {
    && Reading(job, f) && (f.comment.typ == 'c' ==> !f.more)
    && (NoCommentWords(job.lookup) ==> NoComments(f.w, f.pos))
  }

  /** What folding returns, against the last token it read: if that is a comment it is
      returned, behind fewer than five tokens, and no other comment ever is; and all of the
      input was read, but for five tokens or an evil one. */
  ghost predicate EndsWell(job: Job, o: Outcome) {
    var ts := Stream(job);
    && 0 < o.c.tokens <= |ts| && o.n <= |o.w|
    && var last := ts[o.c.tokens - 1];
    && (last.typ == 'c' ==> o.n > 0 && (o.w[o.n - 1] == last || o.n == 5))
    && (NoCommentWords(job.lookup) ==>
          forall i :: 0 <= i < o.n && o.w[i].typ == 'c' ==> i == o.n - 1 && o.w[i] == last)
    && (o.n >= 5 || (o.n > 0 && o.w[o.n - 1].typ == 'X') || o.c.tokens == |ts|)
  }

  lemma {:induction false} SolidClean(ts: seq<Token>)
    ensures NoComments(Solid(ts), |Solid(ts)|)
  {
    if ts == [] {
    } else {
      SolidClean(ts[1..]);
    }
  }

  lemma FillClean(job: Job, f: Folding, n: nat)
    requires Reading(job, f) && NoComments(f.w, f.pos)
    ensures Inv(job, Fill(job, f, n)) && NoComments(Fill(job, f, n).w, Fill(job, f, n).pos)
  {
    hide Fill, Reading, Stream, Solid;
    ReadingInv(job, f);
    FillReads(job, f, n);
    var g := Fill(job, f, n);
    assert f.c.tokens <= g.c.tokens <= |Stream(job)|;
    var read := Solid(Stream(job)[f.c.tokens..g.c.tokens]);
    SolidClean(Stream(job)[f.c.tokens..g.c.tokens]);
    forall i | 0 <= i < g.pos ensures g.w[i].typ != 'c' {
      assert g.w[i] == Row(g)[i] == (Row(f) + read)[i];
      if i < f.pos { assert Row(f)[i] == f.w[i]; }
    }
  }

  lemma LastRead(job: Job, f: Folding)
    requires Reading(job, f)
    ensures 0 < f.c.tokens <= |Stream(job)|
    ensures f.comment.typ == 'c' <==> Stream(job)[f.c.tokens - 1].typ == 'c'
    ensures f.comment.typ == 'c' ==> f.comment == Stream(job)[f.c.tokens - 1]
    ensures f.more || f.c.tokens == |Stream(job)|
    ensures f.pos <= |f.w| && f.pos == |Row(f)|
  {
    hide Stream;
  }

  lemma {:induction false} SolidEnd(ts: seq<Token>)
    requires ts != []
    ensures ts[|ts| - 1].typ == 'c' ==> Solid(ts) == Solid(ts[..|ts| - 1])
  {
    if |ts| == 1 {
    } else {
      SolidEnd(ts[1..]);
      assert ts[1..][..|ts| - 2] == ts[..|ts| - 1][1..];
    }
  }

  lemma LastIsSolid(ts: seq<Token>, f: Folding, g: Folding, n: nat)
    requires f.c.tokens < g.c.tokens <= |ts| && f.pos == |Row(f)| && g.pos == |Row(g)|
    requires Row(g) == Row(f) + Solid(ts[f.c.tokens..g.c.tokens])
    requires Enough(g.pos, f.left, n)
    requires !Enough(f.pos + |Solid(ts[f.c.tokens..g.c.tokens - 1])|, f.left, n)
    ensures ts[g.c.tokens - 1].typ != 'c'
  {
    hide Row;
    SolidEnd(ts[f.c.tokens..g.c.tokens]);
    assert ts[f.c.tokens..g.c.tokens][..g.c.tokens - f.c.tokens - 1] == ts[f.c.tokens..g.c.tokens - 1];
  }

  /** After the loops a pending comment means that too few tokens were left. */
  lemma FillBetween(job: Job, f: Folding, n: nat)
    requires Between(job, f)
    ensures var g := Fill(job, f, n);
      Between(job, g) && (f.more && g.comment.typ == 'c' ==> !Enough(g.pos, g.left, n))
  {
    hide Fill, Stream, Solid, NoComments, NoCommentWords, Row, Reading;
    FillReads(job, f, n);
    ReadingInv(job, f);
    LastRead(job, f);
    LastRead(job, Fill(job, f, n));
    if NoCommentWords(job.lookup) { FillClean(job, f, n); }
    var ts, g := Stream(job), Fill(job, f, n);
    if g.more && f.c.tokens < g.c.tokens { LastIsSolid(ts, f, g, n); }
  }

  /** Reading depends on the cursor, the end, and the pending comment alone. */
  lemma SameReading(job: Job, f: Folding, g: Folding)
    requires Reading(job, f) && Inv(job, g) && g.c == f.c && g.more == f.more && g.comment == f.comment
    ensures Reading(job, g)
  {
    hide OnStream, Stream;
  }

  lemma BetweenInv(job: Job, f: Folding)
    requires Between(job, f)
    ensures Inv(job, f) && Reading(job, f) && (f.comment.typ == 'c' ==> !f.more)
  {
    hide OnStream, Stream;
  }

  lemma ApplyClean(lookup: Lookup, f: Folding, r: Ruling)
    requires |f.w| == WINDOW && f.pos <= |f.w| && WritesTypes(r) && r.drop <= f.pos
    requires f.left + (if r.edit == ThirdOntoSecond then 3 else 2) <= f.pos && f.left + 2 < |f.w|
    requires NoCommentWords(lookup) && NoComments(f.w, f.pos)
    requires r.edit.Merge? ==> exists v :: r.edit.typ == lookup(WordLookup, v)
    ensures NoComments(Apply(f, r).w, f.pos - r.drop)
  {
  }

  lemma ApplyBetween(job: Job, f: Folding, r: Ruling)
    requires Between(job, f) && WritesTypes(r) && r.drop <= f.pos
    requires f.left + (if r.edit == ThirdOntoSecond then 3 else 2) <= f.pos
    requires r.edit.Merge? ==> exists v :: r.edit.typ == job.lookup(WordLookup, v)
    requires Inv(job, Apply(f, r))
    ensures Between(job, Apply(f, r))
  {
    hide Stream, Reading, NoComments, NoCommentWords, Edited;
    BetweenInv(job, f);
    SameReading(job, f, Apply(f, r));
    if NoCommentWords(job.lookup) { ApplyClean(job.lookup, f, r); }
  }

  lemma MovedBetween(job: Job, f: Folding, left: nat)
    requires Between(job, f) && left <= f.pos
    ensures Between(job, f.(left := left))
  {
    hide Stream, Reading, NoCommentWords;
    BetweenInv(job, f);
    SameReading(job, f, f.(left := left));
  }

  lemma SqueezeBetween(job: Job, f: Folding)
    requires Between(job, f)
    ensures Between(job, Squeeze(f))
  {
    hide Stream, Collapses, Reading, NoCommentWords;
    BetweenInv(job, f);
    SameReading(job, f, Squeeze(f));
  }

  lemma TripleBetween(job: Job, f: Folding)
    requires Between(job, f)
    ensures Inv(job, f) && TripleStage(f).Next? && Between(job, TripleStage(f).f)
  {
    hide TripleRule, Stream, Between, Edited;
    assert Inv(job, f) by { BetweenInv(job, f); }
    if f.pos - f.left < 3 {
      MovedBetween(job, f, f.pos);
    } else {
      var a, b, c := f.w[f.left].Lex(), f.w[f.left + 1].Lex(), f.w[f.left + 2].Lex();
      TripleRuleShape(a, b, c);
      TripleRuleTypes(a, b, c);
      var r := TripleRuling(f);
      ApplyBetween(job, f, r);
      MovedBetween(job, Apply(f, r), if r.control == Again then Apply(f, r).left else f.left + 1);
    }
  }

  lemma ThirdBetween(job: Job, f: Folding)
    requires Between(job, f)
    ensures Inv(job, f) && TripleStage(Fill(job, f, 3)).Next?
    ensures Between(job, TripleStage(Fill(job, f, 3)).f)
  {
    hide Fill, TripleStage, Between, Stream;
    BetweenInv(job, f);
    FillBetween(job, f, 3);
    TripleBetween(job, Fill(job, f, 3));
  }

  lemma PairMerges(lookup: Lookup, a: Lexeme, b: Lexeme)
    ensures var e := PairRule(lookup, a, b).edit; e.Merge? ==> exists v :: e.typ == lookup(WordLookup, v)
  {
  }

  lemma AbortEnds(job: Job, f: Folding, r: Ruling)
    requires Between(job, f) && f.left + 2 <= f.pos && f.comment.typ != 'c'
    requires r.edit == RetypeRight(EVIL) && r.drop == 0 && Between(job, Apply(f, r))
    ensures EndsWell(job, Outcome(f.c, Apply(f, r).w, Apply(f, r).folds, f.left + 2))
  {
    hide Stream, Reading;
    LastRead(job, f);
  }

  lemma PairBetween(job: Job, f: Folding)
    requires Between(job, f) && f.left + 2 <= f.pos && f.comment.typ != 'c'
    ensures match PairStage(job, f)
      case Next(g) => Between(job, g)
      case Done(o) => EndsWell(job, o)
  {
    hide Fill, PairRule, TripleStage, Stream, Between, Edited, NoComments, NoCommentWords, EndsWell, WritesTypes,
         Reading, OnStream;
    BetweenInv(job, f);
    var a, b := f.w[f.left].Lex(), f.w[f.left + 1].Lex();
    PairRuleShape(job.lookup, a, b);
    PairRuleTypes(job.lookup, a, b);
    PairMerges(job.lookup, a, b);
    var r := PairRuling(job, f);
    ApplyBetween(job, f, r);
    if r.control == GoOn {
      ThirdBetween(job, Apply(f, r));
    } else if r.control == Abort {
      AbortEnds(job, f, r);
    }
  }

  lemma FinishEnds(job: Job, f: Folding)
    requires Between(job, f) && (!f.more || f.left >= 5) && Inv(job, f)
    ensures EndsWell(job, Finish(f))
  {
    hide Stream, Reading;
    LastRead(job, f);
  }

  lemma StepBetween(job: Job, f: Folding)
    requires Between(job, f)
    ensures Inv(job, f)
    ensures match Step(job, f)
      case Next(g) => Inv(job, g) && Between(job, g)
      case Done(o) => EndsWell(job, o)
  {
    hide Squeeze, Fill, PairStage, Between, EndsWell, Finish, Stream, Reading;
    BetweenInv(job, f);
    StepInv(job, f);
    SqueezeBetween(job, f);
    var g := Squeeze(f);
    BetweenInv(job, g);
    if !g.more || g.left >= MAX_TOKENS {
      FinishEnds(job, g);
    } else {
      var h := Fill(job, g, 2);
      FillBetween(job, g, 2);
      if h.pos - h.left < 2 { MovedBetween(job, h, h.pos); } else { PairBetween(job, h); }
    }
  }

  lemma {:induction false} RunEnds(job: Job, f: Folding)
    requires Inv(job, f) && Between(job, f)
    ensures EndsWell(job, Run(job, f))
    decreases Rank(job, f)
  {
    hide Step, Rank, Between, EndsWell;
    StepInv(job, f);
    StepBetween(job, f);
    match Step(job, f)
    case Next(g) => RunEnds(job, g);
    case Done(_) =>
  }

  lemma OpenedBetween(job: Job, f: Folding)
    requires Inv(job, f) && OnStream(job, f.c) && Opened(Stream(job), f)
    ensures Between(job, f)
  {
    hide OnStream, Stream, AllTokens;
    assert Row(f)[0] == f.w[0];
  }

  /** The result of folding an input of which at least one token is not skipped. If the last
      token read is a comment, it is the last one returned unless five others are; no other
      comment is ever returned; and everything was read, or five tokens or an evil one are
      returned. */
  lemma FoldEndsWell(job: Job)
    requires exists i :: 0 <= i < |Stream(job)| && !Skipped(Stream(job)[i])
    ensures EndsWell(job, FoldAll(job, Tokenizer.START, EMPTY_WINDOW, 0))
  {
    hide FoldAll, Run, Skipped, Stream, EndsWell, OnStream, Opened;
    FoldStarts(job);
    var o := FoldAll(job, Tokenizer.START, EMPTY_WINDOW, 0);
    var f :| Inv(job, f) && o == Run(job, f) && OnStream(job, f.c) && Opened(Stream(job), f);
    OpenedBetween(job, f);
    RunEnds(job, f);
  }
}
