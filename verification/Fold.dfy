/** The folder: tokens are read into a window of eight slots and rewritten until five are
    left or the input is used up. One `Step` is one round of the program's outer loop. */
module Fold {
  import opened Bytes
  import opened Tokens
  import opened Tokenizer
  import opened FoldRules

  const WINDOW: nat := 8

  /** The variables of the folding loop: `pos` tokens are held, the first `left` of them are
      done, `comment` is the last token read if that was a comment. */
  datatype Folding = Folding(c: Cursor, w: seq<Token>, pos: nat, left: nat, more: bool,
                             comment: Token, folds: nat)

  /** What folding leaves: cursor, window, fold counter, number of tokens returned. */
  datatype Outcome = Outcome(c: Cursor, w: seq<Token>, folds: nat, n: nat)

  datatype Round = Next(f: Folding) | Done(o: Outcome)

  predicate Inv(job: Job, f: Folding) {
    |f.w| == WINDOW && f.left <= f.pos <= MAX_TOKENS + 1 && f.c.src <= |job.s|
  }

  /** Read one token into the slot after the held ones; comments do not stay. */
  function Fetch(job: Job, f: Folding): Folding
    requires Inv(job, f) && f.pos <= MAX_TOKENS
  {
    match NextToken(job, f.c)
    case Exhausted(c) =>
      f.(c := c, more := false, w := if job.s == [] then f.w else f.w[f.pos := CLEAR])
    case Found(c, t) =>
      if t.typ == COMMENT then f.(c := c, w := f.w[f.pos := t], comment := t)
      else f.(c := c, w := f.w[f.pos := t], comment := f.comment.(typ := NUL), pos := f.pos + 1)
  }

  /** Twice the unread input plus the held tokens plus one if reading can go on. */
  function Potential(job: Job, f: Folding): nat
    requires Inv(job, f)
  {
    2 * (|job.s| - f.c.src) + f.pos + if f.more then 1 else 0
  }

  lemma FetchFacts(job: Job, f: Folding)
    requires Inv(job, f) && f.pos <= MAX_TOKENS && f.more
    ensures var g := Fetch(job, f);
      && Inv(job, g) && g.left == f.left && g.folds == f.folds && f.pos <= g.pos
      && g.w[..f.pos] == f.w[..f.pos]
      && Potential(job, g) < Potential(job, f)
      && (g.c.src > f.c.src || !g.more)
  {
    hide NextToken;
  }

  /** Read until n tokens stand at or after `left`. */
  function Fill(job: Job, f: Folding, n: nat): (g: Folding)
    requires Inv(job, f)
    ensures Inv(job, g) && g.left == f.left && f.pos <= g.pos
    decreases Potential(job, f)
  {
    hide Fetch;
    if f.more && f.pos <= MAX_TOKENS && f.pos - f.left < n then
      FetchFacts(job, f);
      Fill(job, Fetch(job, f), n)
    else f
  }

  lemma {:induction false} FillFacts(job: Job, f: Folding, n: nat)
    requires Inv(job, f)
    ensures var g := Fill(job, f, n);
      && (g == f || Potential(job, g) < Potential(job, f))
      && (n <= g.pos - g.left || !g.more || g.pos == MAX_TOKENS + 1)
      && g.w[..f.pos] == f.w[..f.pos] && g.folds == f.folds
    decreases Potential(job, f)
  {
    hide Fetch;
    if !f.more || f.pos > MAX_TOKENS || f.pos - f.left >= n {
    } else {
      FetchFacts(job, f);
      var g := Fetch(job, f);
      FillFacts(job, g, n);
      assert g.w[..f.pos] == g.w[..g.pos][..f.pos];
      assert Fill(job, g, n).w[..f.pos] == Fill(job, g, n).w[..g.pos][..f.pos];
    }
  }

  /** The special cases for five tokens. */
  function Squeeze(f: Folding): Folding
    requires |f.w| == WINDOW
  {
    if f.pos >= MAX_TOKENS && Collapses(f.w[0].typ, f.w[1].typ, f.w[2].typ, f.w[3].typ, f.w[4].typ) then
      if f.pos > MAX_TOKENS then f.(w := f.w[1 := f.w[MAX_TOKENS]], pos := 2, left := 0)
      else f.(pos := 1, left := 0)
    else f
  }

  function Edited(w: seq<Token>, left: nat, edit: Edit): (v: seq<Token>)
    requires left + 2 < |w|
    ensures |v| == |w|
  {
    match edit
    case Leave => w
    case RetypeLeft(t) => w[left := w[left].(typ := t)]
    case RetypeRight(t) => w[left + 1 := w[left + 1].(typ := t)]
    case RightOntoLeft => w[left := w[left + 1]]
    case ThirdOntoSecond => w[left + 1 := w[left + 2]]
    case Merge(t, v) => w[left := w[left].Assign(t, w[left].pos, v)]
  }

  function Apply(f: Folding, r: Ruling): Folding
    requires f.left + 2 < |f.w| && r.drop <= f.pos
  {
    f.(w := Edited(f.w, f.left, r.edit), pos := f.pos - r.drop, folds := f.folds + r.folds,
       left := match r.retreat
               case Stay => f.left
               case Back => if f.left > 0 then f.left - 1 else 0
               case Restart => 0)
  }

  function PairRuling(job: Job, f: Folding): Ruling
    requires f.left + 1 < |f.w|
  {
    PairRule(job.lookup, f.w[f.left].Lex(), f.w[f.left + 1].Lex())
  }

  function TripleRuling(f: Folding): Ruling
    requires f.left + 2 < |f.w|
  {
    TripleRule(f.w[f.left].Lex(), f.w[f.left + 1].Lex(), f.w[f.left + 2].Lex())
  }

  /** Put a trailing comment back if there is room, and keep at most five tokens. */
  function Finish(f: Folding): Outcome
    requires |f.w| == WINDOW && f.pos <= MAX_TOKENS + 1
  {
    if f.pos < MAX_TOKENS && f.comment.typ == COMMENT then
      Outcome(f.c, f.w[f.pos := f.comment], f.folds, f.pos + 1)
    else Outcome(f.c, f.w, f.folds, if f.pos > MAX_TOKENS then MAX_TOKENS else f.pos)
  }

  lemma TripleRuleShape(a: Lexeme, b: Lexeme, c: Lexeme)
    ensures var r := TripleRule(a, b, c);
      && (if r.control == Again then 1 <= r.drop <= 3 && r.retreat == Restart
          else r.control == GoOn && r.drop == 0 && r.retreat == Stay && r.edit != ThirdOntoSecond)
      && (r.edit == Leave || r.edit == ThirdOntoSecond
          || (r.edit == RetypeLeft(BAREWORD) && a.typ == FUNCTION && a.Named("USER")))
  {
  }

  function TripleStage(f: Folding): Round
    requires |f.w| == WINDOW && f.left <= f.pos <= MAX_TOKENS + 1
  {
    if f.pos - f.left < 3 then Next(f.(left := f.pos))
    else
      var r := TripleRuling(f);
      TripleRuleShape(f.w[f.left].Lex(), f.w[f.left + 1].Lex(), f.w[f.left + 2].Lex());
      var g := Apply(f, r);
      Next(if r.control == Again then g else g.(left := g.left + 1))
  }

  /** How much a pair ruling drops, and where it leaves `left`. */
  lemma PairRuleShape(lookup: Lookup, a: Lexeme, b: Lexeme)
    ensures var r := PairRule(lookup, a, b);
      && r.drop <= 2
      && (r.drop == 2 ==> r.retreat == Restart)
      && (r.control != Again ==> r.drop == 0)
      && (r.control == Abort ==> a.typ == LEFTBRACE && b.typ == BAREWORD && b.val == [] && r.edit == RetypeRight(EVIL))
      && r.edit != ThirdOntoSecond
  {
  }

  function PairStage(job: Job, f: Folding): Round
    requires Inv(job, f) && f.left + 2 <= f.pos
  {
    var r := PairRuling(job, f);
    PairRuleShape(job.lookup, f.w[f.left].Lex(), f.w[f.left + 1].Lex());
    var g := Apply(f, r);
    match r.control
    case Again => Next(g)
    case Abort => Done(Outcome(g.c, g.w, g.folds, f.left + 2))
    case GoOn => TripleStage(Fill(job, g, 3))
  }

  /** One round of the folding loop. */
  function Step(job: Job, f: Folding): (r: Round)
    requires Inv(job, f)
  {
    var g := Squeeze(f);
    if !g.more || g.left >= MAX_TOKENS then Done(Finish(g))
    else
      var h := Fill(job, g, 2);
      if h.pos - h.left < 2 then Next(h.(left := h.pos)) else PairStage(job, h)
  }
}
