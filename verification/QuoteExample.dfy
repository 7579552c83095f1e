/** Inputs on which a quoted context and a leading quote differ in their verdict although the
    fingerprint is the same: a one-byte string, a plus sign, a one-byte string. */
module QuoteExample {
  import opened Bytes
  import opened Tokens
  import opened Keywords
  import opened Scanners
  import opened ScannerLaws
  import opened QuoteSearch
  import opened Tokenizer
  import opened FoldRules
  import opened Fold
  import opened FoldRun
  import opened Verdict
  import opened QuoteContext
  import opened QuoteVerdict

  /** x'+'y inside a string opened by a single quote. */
  ghost predicate IsSplit(job: Job) {
    && |job.s| == 5 && job.s[1] == '\'' && job.s[2] == '+' && job.s[3] == '\''
    && job.s[0] != '\'' && job.s[0] != '\\' && job.s[4] != '\'' && job.s[4] != '\\'
    && job.flags.Quoted() && job.flags.Delim() == '\''
  }

  function First(s: bytes): Token requires |s| == 5 { Token(0, 0, STRING, NUL, '\'', [s[0]]) }
  function Second(): Token { Token(2, 0, OPERATOR, NUL, NUL, ['+']) }
  function Third(s: bytes): Token requires |s| == 5 { Token(4, 0, STRING, '\'', NUL, [s[4]]) }
  function Cursors(i: nat): Cursor
  {
    if i == 1 then Cursor(2, 0, 0, 1) else if i == 2 then Cursor(3, 0, 0, 2) else Cursor(5, 0, 0, 3)
  }

  /** The string scanner at p, given where the quote closes. */
  lemma StringAt(s: bytes, p: nat, offset: nat, close: nat)
    requires p + offset <= close <= |s| && CloseFrom(s, p + offset, '\'') == close
    ensures StringCore(s[p..], '\'', offset) ==
      Quoted(if close == |s| then |s| - p else close + 1 - p, offset, s[p + offset..close],
             if offset > 0 then '\'' else NUL, if close == |s| then NUL else '\'')
  {
    hide CloseFrom, ClosingQuote, Quoted;
    CloseFromIsClosingQuote(s, p + offset, '\'');
    var body := s[p..][offset..];
    assert body == s[p + offset..] == s[p + offset..|s|];
    assert body[..close - p - offset] == s[p + offset..close];
  }

  lemma FirstIs(job: Job)
    requires IsSplit(job)
    ensures NextToken(job, Tokenizer.START) == Found(Cursors(1), First(job.s))
  {
    hide StringCore;
    assert job.s[0..] == job.s && job.s[0..1] == [job.s[0]];
    assert CloseFrom(job.s, 1, '\'') == 1;
    StringAt(job.s, 0, 0, 1);
  }

  lemma NextIs(job: Job, c: Cursor, sc: Scan)
    requires c.src < |job.s| && (c.src > 0 || !job.flags.Quoted())
    requires ScanAt(job.s, c.src, job.flags, job.lookup) == sc && sc.tok.typ != NUL
    ensures NextToken(job, c) == Found(c.After(sc).Counted(), sc.tok.Moved(c.src))
  {
    hide ScanAt;
  }

  lemma SecondIs(job: Job)
    requires IsSplit(job)
    ensures NextToken(job, Cursors(1)) == Found(Cursors(2), Second())
  {
    hide NextToken, ScanAt;
    SingleBytes(job.s, 2, job.flags, job.lookup);
    NextIs(job, Cursors(1), One(OPERATOR, '+'));
  }

  lemma ThirdIs(job: Job)
    requires IsSplit(job)
    ensures NextToken(job, Cursors(2)) == Found(Cursors(3), Third(job.s))
  {
    hide NextToken, ScanAt, StringCore;
    ScanQuote(job.s, 3, job.flags, job.lookup);
    assert job.s[4..5] == [job.s[4]];
    assert CloseFrom(job.s, 4, '\'') == 5;
    StringAt(job.s, 3, 1, 5);
    NextIs(job, Cursors(2), StringCore(job.s[3..], '\'', 1));
  }

  lemma FetchIs(job: Job, f: Folding, c: Cursor, t: Token)
    requires Inv(job, f) && f.pos <= MAX_TOKENS
    requires NextToken(job, f.c) == Found(c, t) && t.typ != COMMENT && f.comment.typ == NUL
    ensures Fetch(job, f) == f.(c := c, w := f.w[f.pos := t], pos := f.pos + 1)
  {
    hide NextToken;
  }

  /** The window after the first round. */
  function Window(s: bytes): (w: seq<Token>)
    requires |s| == 5
    ensures |w| == WINDOW
  {
    EMPTY_WINDOW[0 := First(s)][1 := Second()][2 := Third(s)]
  }

  lemma NothingFolds(lookup: Lookup, x: byte, y: byte)
    ensures var a, b, c := Lexeme(STRING, [x]), Lexeme(OPERATOR, ['+']), Lexeme(STRING, [y]);
      && PairRule(lookup, a, b) == NO_RULE && PairRule(lookup, b, c) == NO_RULE
      && TripleRule(a, b, c) == NO_RULE
  {
    var b := Lexeme(OPERATOR, ['+']);
    assert Upper(b.val)[0] == '+';
    assert !b.Named("LIKE") && !b.Named("NOT LIKE");
    assert CStr(b.val) != "::";
  }

  /** The first round reads all three tokens and finds nothing to fold. */
  lemma FirstRound(job: Job)
    requires IsSplit(job)
    ensures var f := Opening(Cursors(1), EMPTY_WINDOW, First(job.s), 0);
      Inv(job, f) && Step(job, f) == Next(Folding(Cursors(3), Window(job.s), 3, 1, true, CLEAR, 0))
  {
    hide NextToken, Fetch, PairRule, TripleRule;
    var f := Opening(Cursors(1), EMPTY_WINDOW, First(job.s), 0);
    var f2 := f.(c := Cursors(2), w := f.w[1 := Second()], pos := 2);
    var f3 := f2.(c := Cursors(3), w := f2.w[2 := Third(job.s)], pos := 3);
    SecondIs(job);
    ThirdIs(job);
    FetchIs(job, f, Cursors(2), Second());
    FetchIs(job, f2, Cursors(3), Third(job.s));
    NothingFolds(job.lookup, job.s[0], job.s[4]);
    assert Fill(job, f2, 2) == f2 && Fill(job, f3, 3) == f3;
    assert Fill(job, f, 2) == f2;
    assert Fill(job, f2, 3) == f3;
  }

  /** The second round finds the input used up, the third one stops. */
  lemma LastRounds(job: Job)
    requires IsSplit(job)
    ensures var f := Folding(Cursors(3), Window(job.s), 3, 1, true, CLEAR, 0);
      Inv(job, f) && Run(job, f) == Outcome(Cursors(3), Window(job.s), 0, 3)
  {
    hide PairRule, TripleRule, Rank;
    var f := Folding(Cursors(3), Window(job.s), 3, 1, true, CLEAR, 0);
    assert NextToken(job, Cursors(3)) == Exhausted(Cursors(3));
    var g := f.(more := false);
    assert f.w[3 := CLEAR] == f.w;
    hide NextToken;
    assert Fetch(job, f) == g;
    NothingFolds(job.lookup, job.s[0], job.s[4]);
    assert Fill(job, f, 2) == f && Fill(job, g, 3) == g;
    assert Fill(job, f, 3) == g;
    StepInv(job, f);
    assert Step(job, f) == Next(g.(left := 3));
    assert Step(job, g.(left := 3)) == Done(Outcome(Cursors(3), Window(job.s), 0, 3));
  }

  lemma SplitTypes(s: bytes)
    requires |s| == 5
    ensures Types(Window(s), 3) == "sos"
  {
    var w := Window(s);
    assert Types(w, 3) == [w[0].typ, w[1].typ, w[2].typ];
  }

  /** The fingerprint is "sos", and the two strings straddle the input. */
  lemma SplitFingerprint(job: Job)
    requires IsSplit(job)
    ensures var p := Fingerprint(job);
      p.fp == "sos" && |p.w| == WINDOW && StraddlesStrings(p)
  {
    hide NextToken, Run, Step, Rank;
    FirstIs(job);
    assert !Skippable(First(job.s));
    FirstRound(job);
    LastRounds(job);
    var f := Opening(Cursors(1), EMPTY_WINDOW, First(job.s), 0);
    RoundsFollow(job, f);
    assert FoldAll(job, Tokenizer.START, EMPTY_WINDOW, 0) == Outcome(Cursors(3), Window(job.s), 0, 3);
    SplitTypes(job.s);
  }

  lemma NoTagInside(s: bytes)
    requires forall i :: 0 <= i < |s| ==> s[i] != '$'
    ensures TagsStay(s)
  {
    forall p: nat | 1 <= p <= |s| ensures !OpensTag(s[p..]) {
      if p < |s| { assert s[p..][0] == s[p]; }
    }
  }

  lemma UpperSos()
    ensures Upper("sos") == ['S', 'O', 'S']
  {
  }

  /** The claim that a quoted context is the same as a quote in front of the input fails: with
      any table that lists the fingerprint, the quoted context detects an attack in x'+'y, and
      nothing is detected in 'x'+'y. */
  lemma LeadingQuoteHidesAttack(table: seq<Keyword>, s: bytes)
    requires TypeOf(table, ['0', 'S', 'O', 'S']) == FINGERPRINT
    requires |s| == 5 && s[1] == '\'' && s[2] == '+' && s[3] == '\''
    requires s[0] != '\'' && s[0] != '\\' && s[0] != '$' && s[4] != '\'' && s[4] != '\\' && s[4] != '$'
    ensures Detects(table, s, SINGLE_ANSI) && !Detects(table, ['\''] + s, NONE_ANSI)
  {
    hide Fingerprint, Detects, TagsStay, Slips, StraddlesStrings, TypeOf;
    NoTagInside(s);
    NothingSlips(Job(s, SINGLE_ANSI, Dictionary(table)));
    SplitFingerprint(Job(s, SINGLE_ANSI, Dictionary(table)));
    assert ['0'] + Upper("sos") == ['0', 'S', 'O', 'S'] by { UpperSos(); }
    QuoteVerdicts(table, s, '\'', SINGLE_ANSI, NONE_ANSI);
  }
}
