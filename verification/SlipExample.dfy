/** A tagged string that slips: the quoted context and the leading quote may not even yield the
    same fingerprint, so the condition on slips in QuoteSimulation is needed; and they may
    nevertheless, if folding drops what they read differently. */
module SlipExample {
  import opened Bytes
  import opened Tokens
  import opened Scanners
  import opened ScannerLaws
  import opened WordLaws
  import opened QuoteSearch
  import opened Tokenizer
  import opened FoldRules
  import opened Fold
  import opened FoldRun
  import opened Verdict
  import opened QuoteContext
  import opened QuoteExample

  /** A quote, `$ZZ$`, a space, `$ZZ$`, and one byte more. */
  predicate IsSlip(s: bytes) {
    && |s| == 11 && s[0] == '\''
    && s[1] == '$' && s[2] == 'Z' && s[3] == 'Z' && s[4] == '$' && s[5] == ' '
    && s[6] == '$' && s[7] == 'Z' && s[8] == 'Z' && s[9] == '$'
  }

  lemma TagIs(s: bytes)
    requires IsSlip(s)
    ensures OpensTag(s[1..]) && TagLength(s[1..]) == 4 && s[1..][..4] == ['$', 'Z', 'Z', '$']
  {
    TagOpens(s[1..], 2);
  }

  lemma TagSlipsHere(s: bytes)
    requires IsSlip(s)
    ensures OpensTag(s[1..]) && TagClose(s, 1) == 6 && TagSlips(s, 1)
  {
    hide OpensTag, TagClose, TagLength;
    TagIs(s);
    var tag: bytes := ['$', 'Z', 'Z', '$'];
    assert s[6..6 + 4] == tag;
    assert s[4..4 + 4][1] == ' ' && s[5..5 + 4][0] == ' ';
    TagCloseMeans(s, 1, 6);
  }

  // ----- the quoted context

  /** Where the reading of the quoted context stands after i tokens. */
  function QuotedAt(i: nat): Cursor {
    Cursor(if i == 1 then 1 else if i == 2 then 10 else 11, 0, 0, i)
  }

  function Empty(): Token { Token(0, 0, STRING, NUL, '\'', []) }
  function Parens(): Token { Token(10, 0, RIGHTPARENS, NUL, NUL, [')']) }

  ghost predicate SlipJob(job: Job) {
    IsSlip(job.s) && job.flags.Quoted() && job.flags.Delim() == '\''
  }

  lemma AtTheEnd(job: Job, c: Cursor)
    requires c.src == |job.s| > 0
    ensures NextToken(job, c) == Exhausted(c)
  {
    hide ScanAt, StringCore;
  }

  lemma SlipStart(s: bytes)
    requires IsSlip(s)
    ensures |s| == 11 && s[0] == '\'' && s[1] == '$'
    ensures s[0..] == s && s[0..0] == []
  {
  }

  lemma QuotedFirst(job: Job)
    requires SlipJob(job)
    ensures NextToken(job, Tokenizer.START) == Found(QuotedAt(1), Empty())
    ensures NextToken(job, QuotedAt(3)) == Exhausted(QuotedAt(3))
  {
    hide ScanAt, StringCore, CloseFrom, Advance, IsSlip;
    var s := job.s;
    SlipStart(s);
    AtTheEnd(job, QuotedAt(3));
    AtQuote(s, 0, '\'');
    StringAt(s, 0, 0, 0);
  }

  lemma TagScan(s: bytes) returns (sc: Scan)
    requires IsSlip(s) && OpensTag(s[1..]) && TagClose(s, 1) == 6 && TagLength(s[1..]) == 4
    ensures sc == MoneyTag(s, 1) && sc.len == 9 && sc.tok.typ == STRING && sc.ddx == sc.hash == 0
  {
    hide OpensTag, TagClose, TagLength;
    sc := MoneyTag(s, 1);
  }

  lemma QuotedSecond(job: Job) returns (t: Token)
    requires SlipJob(job)
    ensures NextToken(job, QuotedAt(1)) == Found(QuotedAt(2), t) && t.typ == STRING
  {
    hide ScanAt, NextToken, OpensTag, TagClose, MoneyTag, TagSlips, TagLength;
    var s := job.s;
    TagSlipsHere(s);
    TagIs(s);
    var sc := TagScan(s);
    ScanTag(s, 1, job.flags, job.lookup);
    NextIs(job, QuotedAt(1), sc);
    t := sc.tok.Moved(1);
  }

  lemma QuotedThird(job: Job)
    requires SlipJob(job) && job.s[10] == ')'
    ensures NextToken(job, QuotedAt(2)) == Found(QuotedAt(3), Parens())
  {
    hide ScanAt, NextToken, IsSlip;
    SlipStart(job.s);
    SingleBytes(job.s, 10, job.flags, job.lookup);
    NextIs(job, QuotedAt(2), One(RIGHTPARENS, ')'));
  }

  lemma QuotedTokens(job: Job) returns (t: Token)
    requires SlipJob(job) && job.s[10] == ')'
    ensures NextToken(job, Tokenizer.START) == Found(QuotedAt(1), Empty())
    ensures NextToken(job, QuotedAt(1)) == Found(QuotedAt(2), t) && t.typ == STRING
    ensures NextToken(job, QuotedAt(2)) == Found(QuotedAt(3), Parens())
    ensures NextToken(job, QuotedAt(3)) == Exhausted(QuotedAt(3))
  {
    hide NextToken, IsSlip;
    QuotedFirst(job);
    t := QuotedSecond(job);
    QuotedThird(job);
  }

  lemma TwoStrings(lookup: Lookup, a: Lexeme, b: Lexeme)
    requires a.typ == STRING && b.typ == STRING
    ensures PairRule(lookup, a, b) == Drop(1, 1, Stay)
  {
  }

  /** A round that reads a second string drops it. */
  lemma DropSecond(job: Job, f: Folding, c: Cursor, t: Token) returns (g: Folding)
    requires Inv(job, f) && f.pos == 1 && f.left == 0 && f.more && f.comment == CLEAR && f.w[0].typ == STRING
    requires NextToken(job, f.c) == Found(c, t) && t.typ == STRING
    ensures Step(job, f) == Next(g) && g == f.(c := c, w := f.w[1 := t], folds := f.folds + 1)
  {
    hide NextToken, Fetch;
    FetchIs(job, f, c, t);
    var f2 := f.(c := c, w := f.w[1 := t], pos := 2);
    assert Fill(job, f2, 2) == f2;
    assert Fill(job, f, 2) == f2;
    assert PairRule(job.lookup, f2.w[0].Lex(), t.Lex()) == Drop(1, 1, Stay) by {
      TwoStrings(job.lookup, f2.w[0].Lex(), t.Lex());
    }
    g := f.(c := c, w := f.w[1 := t], folds := f.folds + 1);
  }

  lemma StringParens(lookup: Lookup, a: Lexeme, b: Lexeme)
    requires a.typ == STRING && b.typ == RIGHTPARENS
    ensures PairRule(lookup, a, b) == NO_RULE
  {
  }

  lemma FetchEnd(job: Job, f: Folding, c: Cursor)
    requires Inv(job, f) && f.pos <= MAX_TOKENS && job.s != [] && NextToken(job, f.c) == Exhausted(c)
    ensures Fetch(job, f) == f.(c := c, more := false, w := f.w[f.pos := CLEAR])
  {
    hide NextToken;
  }

  /** A round that reads the parenthesis and the end of the input. */
  lemma TakeParens(job: Job, g: Folding) returns (h: Folding)
    requires SlipJob(job) && job.s[10] == ')' && Inv(job, g) && g.c == QuotedAt(2) && g.pos == 1 && g.left == 0
    requires g.more && g.comment == CLEAR && g.w[0].typ == STRING
    ensures Step(job, g) == Next(h) && Inv(job, h) && !h.more && h.pos == 2 && h.comment.typ == NUL
    ensures h.w[0].typ == STRING && h.w[1].typ == RIGHTPARENS
  {
    hide NextToken, Fetch, PairRule;
    var t := QuotedTokens(job);
    FetchIs(job, g, QuotedAt(3), Parens());
    var g2 := g.(c := QuotedAt(3), w := g.w[1 := Parens()], pos := 2);
    assert Fill(job, g2, 2) == g2;
    assert Fill(job, g, 2) == g2;
    StringParens(job.lookup, g2.w[0].Lex(), g2.w[1].Lex());
    var g3 := g2.(more := false, w := g2.w[2 := CLEAR]);
    FetchEnd(job, g2, QuotedAt(3));
    assert Fill(job, g3, 3) == g3;
    assert Fill(job, g2, 3) == g3;
    h := g3.(left := 2);
  }

  /** Nothing more to read: the held tokens are returned. */
  lemma StopHere(job: Job, h: Folding)
    requires Inv(job, h) && !h.more && h.pos <= 4 && h.comment.typ == NUL
    ensures Run(job, h) == Outcome(h.c, h.w, h.folds, h.pos)
  {
    hide Rank, Fill;
    StepInv(job, h);
  }

  /** A string, a string, and a closing parenthesis fold to a string and the parenthesis. */
  lemma QuotedFold(job: Job)
    requires SlipJob(job) && job.s[10] == ')'
    ensures var o := FoldAll(job, Tokenizer.START, EMPTY_WINDOW, 0);
      o.n == 2 && o.w[0].typ == STRING && o.w[1].typ == RIGHTPARENS
  {
    hide NextToken, Run, Step, Rank, PairRule;
    var t := QuotedTokens(job);
    assert !Skippable(Empty());
    var f := Opening(QuotedAt(1), EMPTY_WINDOW, Empty(), 0);
    var g := DropSecond(job, f, QuotedAt(2), t);
    RoundsFollow(job, f);
    var h := TakeParens(job, g);
    RoundsFollow(job, g);
    StopHere(job, h);
  }

  /** A space yields no token. */
  lemma QuotedSpace(job: Job)
    requires SlipJob(job) && job.s[10] == ' '
    ensures NextToken(job, QuotedAt(2)) == Exhausted(QuotedAt(2).(src := 11))
  {
    hide ScanAt, IsSlip;
    SlipStart(job.s);
    BlanksAreSkipped(job.s, 10, job.flags, job.lookup);
    AtTheEnd(job, QuotedAt(2).(src := 11));
  }

  lemma ReadEnd(job: Job, g: Folding, c: Cursor) returns (h: Folding)
    requires Inv(job, g) && g.pos == 1 && g.left == 0 && g.more && g.comment == CLEAR && job.s != []
    requires NextToken(job, g.c) == Exhausted(c)
    ensures Step(job, g) == Next(h) && Inv(job, h) && !h.more && h.pos == 1 && h.comment.typ == NUL
    ensures h.w[0] == g.w[0]
  {
    hide NextToken, Fetch;
    FetchEnd(job, g, c);
    var g2 := g.(c := c, more := false, w := g.w[1 := CLEAR]);
    assert Fill(job, g2, 2) == g2;
    assert Fill(job, g, 2) == g2;
    h := g2.(left := 1);
  }

  /** A string and a string fold to a string. */
  lemma OneString(job: Job, c: Cursor, t: Token, d: Cursor, u: Token, e: Cursor)
    requires NextToken(job, Tokenizer.START) == Found(c, t) && t.typ == STRING && c.src <= |job.s|
    requires NextToken(job, c) == Found(d, u) && u.typ == STRING && d.src <= |job.s|
    requires NextToken(job, d) == Exhausted(e) && job.s != []
    ensures var o := FoldAll(job, Tokenizer.START, EMPTY_WINDOW, 0); o.n == 1 && o.w[0].typ == STRING
  {
    hide NextToken, Run, Step, Rank, PairRule;
    assert !Skippable(t);
    var f := Opening(c, EMPTY_WINDOW, t, 0);
    var g := DropSecond(job, f, d, u);
    RoundsFollow(job, f);
    var h := ReadEnd(job, g, e);
    RoundsFollow(job, g);
    StopHere(job, h);
  }

  lemma QuotedFoldSpace(job: Job)
    requires SlipJob(job) && job.s[10] == ' '
    ensures var o := FoldAll(job, Tokenizer.START, EMPTY_WINDOW, 0); o.n == 1 && o.w[0].typ == STRING
  {
    hide NextToken, FoldAll, IsSlip;
    SlipStart(job.s);
    QuotedFirst(job);
    var t := QuotedSecond(job);
    QuotedSpace(job);
    OneString(job, QuotedAt(1), Empty(), QuotedAt(2), t, QuotedAt(2).(src := 11));
  }

  // ----- the quote in front

  function PlainAt(i: nat): Cursor {
    Cursor(if i == 1 then 2 else 12, 0, 0, i)
  }

  lemma NextAtStart(job: Job, c: Cursor, text: bytes) returns (t: Token)
    requires job.s != [] && !job.flags.Quoted() && c.src == 0 && c.ddx == 0 && c.hash == 0
    requires ScanAt(job.s, 0, job.flags, job.lookup) == Quoted(2, 1, text, '\'', '\'')
    ensures NextToken(job, c) == Found(Cursor(2, 0, 0, c.tokens + 1), t) && t.typ == STRING
  {
    hide ScanAt, NextToken;
    var sc := Quoted(2, 1, text, '\'', '\'');
    NextIs(job, c, sc);
    t := sc.tok.Moved(0);
  }

  lemma PlainFirst(job: Job, s: bytes) returns (t: Token)
    requires IsSlip(s) && job.s == ['\''] + s && !job.flags.Quoted()
    ensures NextToken(job, Tokenizer.START) == Found(PlainAt(1), t) && t.typ == STRING
    ensures NextToken(job, PlainAt(2)) == Exhausted(PlainAt(2))
  {
    hide ScanAt, StringCore, CloseFrom, NextToken, IsSlip, Quoted;
    var s2 := job.s;
    SlipStart(s);
    assert s2[0..] == s2 && s2[1] == '\'' && s2[2] == '$';
    AtTheEnd(job, PlainAt(2));
    AtQuote(s2, 1, '\'');
    StringAt(s2, 0, 1, 1);
    ScanQuote(s2, 0, job.flags, job.lookup);
    t := NextAtStart(job, Tokenizer.START, s2[1..1]);
  }

  lemma PlainSecond(job: Job, s: bytes) returns (u: Token)
    requires IsSlip(s) && job.s == ['\''] + s && !job.flags.Quoted()
    ensures NextToken(job, PlainAt(1)) == Found(PlainAt(2), u) && u.typ == STRING
  {
    hide ScanAt, NextToken, OpensTag, TagClose, MoneyTag, TagSlips, TagLength, IsSlip;
    var s2 := job.s;
    SlipStart(s);
    TagSlipsHere(s);
    OpensTagShift(s, '\'', 1);
    if TagCloses(s2, 2) {
      TagCloseReturns(s, s2, '\'', 1);
      assert false;
    }
    Unclosed(s2, 2);
    ScanTag(s2, 2, job.flags, job.lookup);
    NextIs(job, PlainAt(1), MoneyTag(s2, 2));
    u := MoneyTag(s2, 2).tok.Moved(2);
  }

  lemma PlainFold(job: Job, s: bytes)
    requires IsSlip(s) && job.s == ['\''] + s && !job.flags.Quoted()
    ensures var o := FoldAll(job, Tokenizer.START, EMPTY_WINDOW, 0); o.n == 1 && o.w[0].typ == STRING
  {
    hide NextToken, FoldAll;
    var t := PlainFirst(job, s);
    var u := PlainSecond(job, s);
    OneString(job, PlainAt(1), t, PlainAt(2), u, PlainAt(2));
  }

  lemma ShortFingerprint(job: Job)
    ensures var o, fp := FoldAll(job, Tokenizer.START, EMPTY_WINDOW, 0), Fingerprint(job).fp;
      && (o.n == 1 && o.w[0].typ == STRING ==> fp == [STRING])
      && (o.n == 2 && o.w[0].typ == STRING && o.w[1].typ == RIGHTPARENS ==> |fp| == 2)
  {
    hide FoldAll;
  }

  /** Where a tagged string slips, the two passes may yield different fingerprints, as on
      '$ZZ$ $ZZ$) with a parenthesis at the end, or the same, as with a space instead. */
  lemma SlipsMayMatter(a: Job, b: Job)
    requires IsSlip(a.s) && (a.s[10] == ')' || a.s[10] == ' ') && b.s == ['\''] + a.s
    requires a.flags.Quoted() && a.flags.Delim() == '\'' && !b.flags.Quoted()
    ensures Slips(a) && (Fingerprint(a).fp == Fingerprint(b).fp <==> a.s[10] == ' ')
  {
    hide FoldAll, Fingerprint, TagSlips, OpensTag, NextToken;
    TagSlipsHere(a.s);
    QuotedFirst(a);
    if a.s[10] == ')' { QuotedFold(a); } else { QuotedFoldSpace(a); }
    PlainFold(b, a.s);
    ShortFingerprint(a);
    ShortFingerprint(b);
  }
}
