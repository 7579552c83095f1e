/** The rounds of the folding loop, told as what becomes of the row of held tokens: by the type
    of the token under the cursor, with types written out as the characters of a fingerprint. */
module FoldLaws {
  import opened Bytes
  import opened Tokens
  import opened Tokenizer
  import opened FoldRules
  import opened Fold

  /** The tokens held. */
  function Row(f: Folding): seq<Token> { if f.pos <= |f.w| then f.w[..f.pos] else [] }

  /** The row without its last n tokens. */
  function Less(row: seq<Token>, n: nat): seq<Token> {
    if n <= |row| then row[..|row| - n] else []
  }

  /** Five types that fold to their first. */
  predicate FoldsToFirst(ts: bytes) {
    ts in [['1', 'o', '(', '1', ')'], ['1', ',', '(', '1', ')'], ['n', 'o', '(', 'n', ')'], ['n', 'o', '(', '1', ')'],
           ['1', ')', ',', '(', '1'], ['n', ')', 'o', '(', 'n']]
  }

  predicate Collapsing(f: Folding)
    requires |f.w| == WINDOW
  {
    f.pos >= 5 && FoldsToFirst([f.w[0].typ, f.w[1].typ, f.w[2].typ, f.w[3].typ, f.w[4].typ])
  }

  /** The loop goes on with at least two tokens at the cursor. */
  predicate Two(job: Job, f: Folding) {
    Inv(job, f) && f.more && f.left < 5 && f.left + 2 <= f.pos && !Collapsing(f)
  }

  /** g is f with this row and cursor, and these many folds counted. */
  predicate Now(f: Folding, g: Folding, row: seq<Token>, left: nat, folds: nat) {
    && |row| == g.pos && Row(g) == row && g.left == left && g.folds == f.folds + folds
    && g.c == f.c && g.more == f.more && g.comment == f.comment
  }

  /** The round ends with this row, the cursor at `left`. */
  predicate Goes(job: Job, f: Folding, row: seq<Token>, left: nat, folds: nat)
    requires Inv(job, f)
  {
    Step(job, f).Next? && Now(f, Step(job, f).f, row, left, folds)
  }

  /** No rule for two tokens ends the round: with this row, a third token is looked at. */
  predicate Passes(job: Job, f: Folding, row: seq<Token>, left: nat)
    requires Inv(job, f)
  {
    |row| == f.pos && left <= f.pos
    && var g := f.(w := row + f.w[f.pos..], left := left);
       Inv(job, g) && Step(job, f) == TripleStage(Fill(job, g, 3))
  }

  lemma Collapse(f: Folding)
    requires |f.w| == WINDOW
    ensures Collapses(f.w[0].typ, f.w[1].typ, f.w[2].typ, f.w[3].typ, f.w[4].typ) <==>
      FoldsToFirst([f.w[0].typ, f.w[1].typ, f.w[2].typ, f.w[3].typ, f.w[4].typ])
  {
  }

  /** Five such tokens become the first, or the first and a sixth, before anything else. */
  lemma FiveTokens(job: Job, f: Folding)
    requires Inv(job, f) && Collapsing(f)
    ensures Inv(job, Squeeze(f)) && Now(f, Squeeze(f), if f.pos == 6 then [f.w[0], f.w[5]] else [f.w[0]], 0, 0)
    ensures Step(job, f) == Step(job, Squeeze(f))
  {
    hide Fill, PairStage, Finish, FoldsToFirst, Collapses;
    Collapse(f);
    assert Squeeze(Squeeze(f)) == Squeeze(f);
  }

  lemma NoCollapse(f: Folding)
    requires |f.w| == WINDOW && !Collapsing(f)
    ensures Squeeze(f) == f
  {
    hide FoldsToFirst, Collapses;
    Collapse(f);
  }

  /** The loop ends when the input is used up or five tokens are done: the row is returned,
      at most five tokens of it; a comment still pending comes behind fewer than five. */
  lemma Ends(job: Job, f: Folding)
    requires Inv(job, f) && !Collapsing(f) && (!f.more || f.left >= 5)
    ensures match Step(job, f)
      case Next(_) => false
      case Done(o) =>
        && o.n <= |o.w| && o.c == f.c && o.folds == f.folds
        && o.w[..o.n] == if f.pos < 5 && f.comment.typ == 'c' then Row(f) + [f.comment]
                         else if f.pos > 5 then Row(f)[..5] else Row(f)
  {
    hide Squeeze, Fill, PairStage;
    NoCollapse(f);
  }

  /** With fewer than two tokens at the cursor, and none to come, the row is done. */
  lemma TooFew(job: Job, f: Folding)
    requires Inv(job, f) && f.more && f.left < 5 && !Collapsing(f)
    ensures var h := Fill(job, f, 2);
      if h.pos < h.left + 2 then Step(job, f) == Next(h.(left := h.pos)) else Step(job, f) == PairStage(job, h)
  {
    hide Squeeze, Fill, PairStage;
    NoCollapse(f);
  }

  lemma RoundIs(job: Job, f: Folding)
    requires Two(job, f)
    ensures var r := PairRuling(job, f);
      && r.drop <= 2 && (r.control != Again ==> r.drop == 0)
      && (r.control == Again ==> Step(job, f) == Next(Apply(f, r)))
      && (r.control == GoOn ==> Inv(job, Apply(f, r)) && Step(job, f) == TripleStage(Fill(job, Apply(f, r), 3)))
      && (r.control == Abort ==> Step(job, f) == Done(Outcome(f.c, Apply(f, r).w, Apply(f, r).folds, f.left + 2)))
  {
    hide Squeeze, PairRule, TripleStage, Collapsing;
    NoCollapse(f);
    assert Fill(job, f, 2) == f;
    PairRuleShape(job.lookup, f.w[f.left].Lex(), f.w[f.left + 1].Lex());
  }

  lemma Rejoined(w: seq<Token>, pos: nat, row: seq<Token>, n: nat, v: seq<Token>)
    requires n <= pos <= |w| == |v| && |row| == pos
    requires v[pos..] == w[pos..] && v[..pos] == row
    ensures row + w[pos..] == v && v[..pos - n] == Less(row, n)
  {
    assert v == v[..pos] + v[pos..];
  }

  /** The row with the change a ruling makes. */
  function Changed(f: Folding, e: Edit): seq<Token>
    requires |f.w| == WINDOW && f.left + (if e == ThirdOntoSecond then 3 else 2) <= f.pos <= 6
  {
    var a, b := f.w[f.left], f.w[f.left + 1];
    match e
    case Leave => Row(f)
    case RetypeLeft(t) => Row(f)[f.left := a.(typ := t)]
    case RetypeRight(t) => Row(f)[f.left + 1 := b.(typ := t)]
    case RightOntoLeft => Row(f)[f.left := b]
    case ThirdOntoSecond => Row(f)[f.left + 1 := f.w[f.left + 2]]
    case Merge(t, v) => Row(f)[f.left := a.(typ := t, val := Cut(v))]
  }

  /** The row after a ruling, whole and without what the ruling drops. */
  lemma RowAfter(f: Folding, r: Ruling)
    requires |f.w| == WINDOW && f.left + (if r.edit == ThirdOntoSecond then 3 else 2) <= f.pos <= 6
    requires r.drop <= f.pos
    ensures var g, row := Apply(f, r), Changed(f, r.edit);
      && g.pos == f.pos - r.drop && Row(g) == Less(row, r.drop)
      && |row| == f.pos && g.w == row + f.w[f.pos..] && Less(row, 0) == row
  {
    Rejoined(f.w, f.pos, Changed(f, r.edit), r.drop, Apply(f, r).w);
  }

  function OneBack(left: nat): nat { if left > 0 then left - 1 else 0 }

  /** The round a ruling makes. */
  lemma RoundGoes(job: Job, f: Folding)
    requires Two(job, f)
    ensures var r := PairRuling(job, f);
      var left := match r.retreat case Stay => f.left case Back => OneBack(f.left) case Restart => 0;
      && r.edit != ThirdOntoSecond
      && var row := Changed(f, r.edit);
      && (r.control == Again ==> Goes(job, f, Less(row, r.drop), left, r.folds))
      && (r.control == GoOn && r.folds == 0 ==> Passes(job, f, row, left))
      && Less(row, 0) == row
  {
    hide Step, TripleStage, Fill, PairRule, Changed, Edited, Collapsing;
    RoundIs(job, f);
    PairRuleShape(job.lookup, f.w[f.left].Lex(), f.w[f.left + 1].Lex());
    RowAfter(f, PairRuling(job, f));
  }

  /** What every row does whose second token is a closing brace, or no rule speaks of. */
  predicate Otherwise(job: Job, f: Folding)
    requires Two(job, f)
  {
    if f.w[f.left + 1].typ == '}' then Goes(job, f, Less(Row(f), 1), 0, 1) else Passes(job, f, Row(f), f.left)
  }

  // ----- words

  /** `NOT` and the signs + - ! ~ !! before an operand. */
  predicate Sign(l: Lexeme) {
    l.typ == 'o'
    && (l.val == ['+'] || l.val == ['-'] || l.val == ['!'] || l.val == ['~'] || l.val == ['!', '!']
        || Upper(l.val) == "NOT")
  }

  lemma Signs(l: Lexeme)
    ensures l.IsUnaryOp() <==> Sign(l)
  {
    hide Upper;
    if Upper(l.val) == "NOT" { assert |l.val| == 3; }
  }

  predicate Arithmetic(l: Lexeme) {
    l.typ == 'o' && (l.val == ['*'] || l.val == ['/'] || l.val == ['-'] || l.val == ['+'] || l.val == ['%'])
  }

  lemma ArithmeticOps(l: Lexeme)
    ensures l.IsArithmeticOp() <==> Arithmetic(l)
  {
  }

  /** Two words are a phrase if the dictionary has them with a space between, and they fit. */
  predicate IsPhrase(lookup: Lookup, a: Lexeme, b: Lexeme) {
    && a.typ in ['k', 'n', 'o', 'U', 'f', 'E', 'T', 't']
    && b.typ in ['k', 'n', 'o', 'U', 'f', 'E', 'T', 't', '&']
    && |a.val| + |b.val| <= 30 && lookup(WordLookup, a.val + [' '] + b.val) as int != 0
  }

  lemma Phrases(lookup: Lookup, a: Lexeme, b: Lexeme)
    ensures PhraseType(lookup, a, b) ==
      if IsPhrase(lookup, a, b) then lookup(WordLookup, a.val + [' '] + b.val) else '\0'
    ensures IsPhrase(lookup, a, b) <==> PhraseType(lookup, a, b) as int != 0
  {
  }

  /** The two tokens at the cursor as one, of the phrase's type. */
  function Merged(lookup: Lookup, a: Token, b: Token): Token {
    var phrase := a.val + [' '] + b.val;
    Token(a.pos, a.count, lookup(WordLookup, phrase), a.strOpen, a.strClose, phrase)
  }

  /** The words at the cursor are merged, if they are a phrase. */
  predicate Merges(job: Job, f: Folding)
    requires Two(job, f)
  {
    var a, b := f.w[f.left], f.w[f.left + 1];
    Goes(job, f, Less(Row(f)[f.left := Merged(job.lookup, a, b)], 1), OneBack(f.left), 1)
  }

  predicate PhraseHere(job: Job, f: Folding)
    requires Two(job, f)
  {
    IsPhrase(job.lookup, f.w[f.left].Lex(), f.w[f.left + 1].Lex())
  }

  /** A phrase fits the token's buffer. */
  lemma FitsWhole(lookup: Lookup, a: Token, b: Token)
    ensures IsPhrase(lookup, a.Lex(), b.Lex()) ==>
      Merged(lookup, a, b) == a.(typ := lookup(WordLookup, a.val + [' '] + b.val), val := Cut(a.val + [' '] + b.val))
  {
  }

  // ----- two tokens, by the first

  /** A second string is dropped. */
  lemma AfterString(job: Job, f: Folding)
    requires Two(job, f) && f.w[f.left].typ == 's'
    ensures if f.w[f.left + 1].typ == 's' then Goes(job, f, Less(Row(f), 1), f.left, 1) else Otherwise(job, f)
  {
    hide Step, TripleStage, Fill, PhraseType, Upper, Less, Row, Goes, Passes;
    Phrases(job.lookup, f.w[f.left].Lex(), f.w[f.left + 1].Lex());
    RoundGoes(job, f);
  }

  /** A second semicolon is dropped; IF behind a semicolon is a statement. */
  lemma AfterSemicolon(job: Job, f: Folding)
    requires Two(job, f) && f.w[f.left].typ == ';'
    ensures var b := f.w[f.left + 1];
      if b.typ == ';' then Goes(job, f, Less(Row(f), 1), f.left, 1)
      else if b.typ == 'f' && |b.val| >= 2 && b.val[0] in ['I', 'i'] && b.val[1] in ['F', 'f'] then
        Goes(job, f, Row(f)[f.left + 1 := b.(typ := 'T')], f.left, 0)
      else Otherwise(job, f)
  {
    hide Step, TripleStage, Fill, PhraseType, Upper, Less, Row, Goes, Passes;
    var b := f.w[f.left + 1];
    Phrases(job.lookup, f.w[f.left].Lex(), b.Lex());
    RoundGoes(job, f);
  }

  /** Behind an operator a sign or a type name is dropped; LIKE before a parenthesis is a
      function. */
  lemma AfterOperator(job: Job, f: Folding)
    requires Two(job, f) && f.w[f.left].typ == 'o'
    ensures var a, b := f.w[f.left], f.w[f.left + 1];
      if Sign(b.Lex()) || b.typ == 't' then Goes(job, f, Less(Row(f), 1), 0, 1)
      else if PhraseHere(job, f) then Merges(job, f)
      else if Upper(a.val) == "LIKE" || Upper(a.val) == "NOT LIKE" then
        Passes(job, f, if b.typ == '(' then Row(f)[f.left := a.(typ := 'f')] else Row(f), f.left)
      else Otherwise(job, f)
  {
    hide Step, TripleStage, Fill, PhraseType, Upper, Less, Row, IsPhrase, Sign, Goes, Passes;
    var a, b := f.w[f.left], f.w[f.left + 1];
    Phrases(job.lookup, a.Lex(), b.Lex());
    Signs(b.Lex());
    FitsWhole(job.lookup, a, b);
    RoundGoes(job, f);
  }

  lemma AfterLogicOperator(job: Job, f: Folding)
    requires Two(job, f) && f.w[f.left].typ == '&'
    ensures var b := f.w[f.left + 1];
      if Sign(b.Lex()) || b.typ == 't' then Goes(job, f, Less(Row(f), 1), 0, 1) else Otherwise(job, f)
  {
    hide Step, TripleStage, Fill, PhraseType, Upper, Less, Row, Sign, Goes, Passes;
    Phrases(job.lookup, f.w[f.left].Lex(), f.w[f.left + 1].Lex());
    Signs(f.w[f.left + 1].Lex());
    RoundGoes(job, f);
  }

  /** Behind an opening parenthesis a sign or another one is dropped. */
  lemma AfterOpening(job: Job, f: Folding)
    requires Two(job, f) && f.w[f.left].typ == '('
    ensures var b := f.w[f.left + 1];
      if Sign(b.Lex()) then Goes(job, f, Less(Row(f), 1), OneBack(f.left), 1)
      else if b.typ == '(' then Goes(job, f, Less(Row(f), 1), 0, 1)
      else Otherwise(job, f)
  {
    hide Step, TripleStage, Fill, PhraseType, Upper, Less, Row, Sign, Goes, Passes;
    Phrases(job.lookup, f.w[f.left].Lex(), f.w[f.left + 1].Lex());
    Signs(f.w[f.left + 1].Lex());
    RoundGoes(job, f);
  }

  lemma AfterClosing(job: Job, f: Folding)
    requires Two(job, f) && f.w[f.left].typ == ')'
    ensures if f.w[f.left + 1].typ == ')' then Goes(job, f, Less(Row(f), 1), 0, 1) else Otherwise(job, f)
  {
    hide Step, TripleStage, Fill, PhraseType, Upper, Less, Row, Goes, Passes;
    Phrases(job.lookup, f.w[f.left].Lex(), f.w[f.left + 1].Lex());
    RoundGoes(job, f);
  }

  /** IN is an operator before a parenthesis and a plain word elsewhere. */
  lemma AfterKeyword(job: Job, f: Folding)
    requires Two(job, f) && f.w[f.left].typ == 'k'
    ensures var a, b := f.w[f.left], f.w[f.left + 1];
      if PhraseHere(job, f) then Merges(job, f)
      else if Upper(a.val) == "IN" || Upper(a.val) == "NOT IN" then
        Goes(job, f, Row(f)[f.left := a.(typ := if b.typ == '(' then 'o' else 'n')], f.left, 0)
      else Otherwise(job, f)
  {
    hide Step, TripleStage, Fill, PhraseType, Upper, Less, Row, IsPhrase, Goes, Passes;
    var a, b := f.w[f.left], f.w[f.left + 1];
    Phrases(job.lookup, a.Lex(), b.Lex());
    FitsWhole(job.lookup, a, b);
    RoundGoes(job, f);
  }

  /** Names that are a column or a variable, but a function before a parenthesis. */
  predicate CallableName(v: bytes) {
    Upper(v) in ["USER_ID", "USER_NAME", "USER", "DATABASE", "PASSWORD", "CURRENT_USER", "CURRENT_DATE",
                 "CURRENT_TIME", "CURRENT_TIMESTAMP", "LOCALTIME", "LOCALTIMESTAMP"]
  }

  lemma CallableNames(a: Lexeme)
    ensures MayBeFunction(a) <==> CallableName(a.val)
  {
  }

  lemma AfterName(job: Job, f: Folding)
    requires Two(job, f) && (f.w[f.left].typ == 'n' || f.w[f.left].typ == 'v')
    ensures var a, b := f.w[f.left], f.w[f.left + 1];
      if PhraseHere(job, f) then Merges(job, f)
      else if b.typ == '(' && CallableName(a.val) then Goes(job, f, Row(f)[f.left := a.(typ := 'f')], f.left, 0)
      else Otherwise(job, f)
  {
    hide Step, TripleStage, Fill, PhraseType, Upper, Less, Row, IsPhrase, CallableName, MayBeFunction, Goes, Passes;
    var a, b := f.w[f.left], f.w[f.left + 1];
    Phrases(job.lookup, a.Lex(), b.Lex());
    FitsWhole(job.lookup, a, b);
    CallableNames(a.Lex());
    RoundGoes(job, f);
  }

  /** Of other words only phrases are made. */
  lemma AfterWord(job: Job, f: Folding)
    requires Two(job, f) && f.w[f.left].typ in ['U', 'f', 'E', 'T']
    ensures if PhraseHere(job, f) then Merges(job, f) else Otherwise(job, f)
  {
    hide Step, TripleStage, Fill, PhraseType, Upper, Less, Row, IsPhrase, Goes, Passes;
    var a, b := f.w[f.left], f.w[f.left + 1];
    Phrases(job.lookup, a.Lex(), b.Lex());
    FitsWhole(job.lookup, a, b);
    RoundGoes(job, f);
  }

  /** A type name gives way to the operand behind it. */
  lemma AfterType(job: Job, f: Folding)
    requires Two(job, f) && f.w[f.left].typ == 't'
    ensures var b := f.w[f.left + 1];
      if PhraseHere(job, f) then Merges(job, f)
      else if b.typ in ['n', '1', 't', '(', 'f', 'v', 's'] then Goes(job, f, Less(Row(f)[f.left := b], 1), 0, 1)
      else Otherwise(job, f)
  {
    hide Step, TripleStage, Fill, PhraseType, Upper, Less, Row, IsPhrase, Goes, Passes;
    var a, b := f.w[f.left], f.w[f.left + 1];
    Phrases(job.lookup, a.Lex(), b.Lex());
    FitsWhole(job.lookup, a, b);
    RoundGoes(job, f);
  }

  /** A name with an underscore behind COLLATE is a type name. */
  lemma AfterCollate(job: Job, f: Folding)
    requires Two(job, f) && f.w[f.left].typ == 'A'
    ensures var b := f.w[f.left + 1];
      if b.typ == 'n' then
        if '_' in CStr(b.val) then Passes(job, f, Row(f)[f.left + 1 := b.(typ := 't')], 0)
        else Passes(job, f, Row(f), f.left)
      else Otherwise(job, f)
  {
    hide Step, TripleStage, Fill, PhraseType, Upper, Less, Row, Goes, Passes, CStr;
    var a, b := f.w[f.left], f.w[f.left + 1];
    Phrases(job.lookup, a.Lex(), b.Lex());
    RoundGoes(job, f);
  }

  /** A backslash is a number before an arithmetic operator, and nothing elsewhere. */
  lemma AfterBackslash(job: Job, f: Folding)
    requires Two(job, f) && f.w[f.left].typ == '\\'
    ensures var a, b := f.w[f.left], f.w[f.left + 1];
      if Arithmetic(b.Lex()) then Goes(job, f, Row(f)[f.left := a.(typ := '1')], 0, 0)
      else Goes(job, f, Less(Row(f)[f.left := b], 1), 0, 1)
  {
    hide Step, TripleStage, Fill, PhraseType, Upper, Less, Row, Goes, Passes, Arithmetic;
    var a, b := f.w[f.left], f.w[f.left + 1];
    Phrases(job.lookup, a.Lex(), b.Lex());
    ArithmeticOps(b.Lex());
    RoundGoes(job, f);
  }

  /** Folding ends with the second token at the cursor, which is made evil. */
  predicate GivesUp(f: Folding, o: Outcome)
    requires |f.w| == WINDOW && f.left + 2 <= f.pos <= 6
  {
    && o.c == f.c && o.n == f.left + 2 <= |o.w| && o.folds == f.folds
    && o.w[..o.n] == f.w[..f.left + 1] + [f.w[f.left + 1].(typ := 'X')]
  }

  lemma Aborts(job: Job, f: Folding)
    requires Two(job, f) && PairRuling(job, f).control == Abort
    ensures Step(job, f).Done? && GivesUp(f, Step(job, f).o)
  {
    hide Step, TripleStage, Fill, Collapsing;
    RoundIs(job, f);
  }

  /** An opening brace goes with the word behind it; if that is empty, folding gives up. */
  lemma AfterBrace(job: Job, f: Folding)
    requires Two(job, f) && f.w[f.left].typ == '{'
    ensures var b := f.w[f.left + 1];
      if b.typ == 'n' && b.val == [] then
        Step(job, f).Done? && GivesUp(f, Step(job, f).o)
      else if b.typ == 'n' then Goes(job, f, Less(Row(f), 2), 0, 2)
      else Otherwise(job, f)
  {
    hide GivesUp, Step, TripleStage, Fill, PhraseType, Upper, Less, Row, Goes, Passes;
    var a, b := f.w[f.left], f.w[f.left + 1];
    Phrases(job.lookup, a.Lex(), b.Lex());
    if PairRuling(job, f).control == Abort { Aborts(job, f); }
    RoundGoes(job, f);
  }

  lemma AfterOthers(job: Job, f: Folding)
    requires Two(job, f)
    requires f.w[f.left].typ !in
      ['s', ';', 'o', '&', '(', ')', 'k', 'n', 'v', 'U', 'f', 'E', 'T', 't', 'A', '\\', '{']
    ensures Otherwise(job, f)
  {
    hide Step, TripleStage, Fill, PhraseType, Upper, Less, Row, Goes, Passes;
    Phrases(job.lookup, f.w[f.left].Lex(), f.w[f.left + 1].Lex());
    RoundGoes(job, f);
  }

  // ----- three tokens, by the first

  predicate Three(f: Folding) { |f.w| == WINDOW && f.left + 3 <= f.pos <= 6 }

  /** The third stage ends the round with this row, the cursor at `left`. */
  predicate Then(f: Folding, row: seq<Token>, left: nat, folds: nat)
    requires Three(f)
  {
    TripleStage(f).Next? && Now(f, TripleStage(f).f, row, left, folds)
  }

  /** Nothing folds: the token under the cursor is done. */
  predicate Moves(f: Folding)
    requires Three(f)
  {
    Then(f, Row(f), f.left + 1, 0)
  }

  /** With fewer than three tokens at the cursor all of them are done. */
  lemma NoThird(f: Folding)
    requires |f.w| == WINDOW && f.left <= f.pos <= 6 && f.pos < f.left + 3
    ensures TripleStage(f) == Next(f.(left := f.pos))
  {
    hide TripleRule;
  }

  lemma TripleGoes(f: Folding)
    requires Three(f)
    ensures var r := TripleRuling(f);
      var row := Changed(f, r.edit);
      && r.drop <= 3 && Less(row, 0) == row
      && (if r.control == Again then Then(f, Less(row, r.drop), 0, r.folds) else Then(f, row, f.left + 1, r.folds))
  {
    hide TripleRule, Edited, Changed;
    TripleRuleShape(f.w[f.left].Lex(), f.w[f.left + 1].Lex(), f.w[f.left + 2].Lex());
    RowAfter(f, TripleRuling(f));
  }

  /** An operand. */
  predicate Operand(t: byte) { t in ['1', 'n', 'v', 's'] }

  predicate Casts(b: Token, c: Token) { b.typ == 'o' && CStr(b.val) == [':', ':'] && c.typ == 't' }

  predicate Lists(b: Token, c: Token) { b.typ == ',' && Operand(c.typ) }

  /** A number, a name, a variable or a string swallows what is listed, computed or cast
      behind it. */
  lemma OperandFirst(f: Folding)
    requires Three(f) && Operand(f.w[f.left].typ)
    ensures var a, b, c := f.w[f.left], f.w[f.left + 1], f.w[f.left + 2];
      if Lists(b, c)
         || (b.typ == 'o' && a.typ != 's' && (c.typ == '1' || c.typ == 'n' || (c.typ == 'v' && a.typ == 'v')))
         || (b.typ == '.' && a.typ == 'n' && c.typ == 'n')
      then Then(f, Less(Row(f), 2), 0, 0)
      else if Casts(b, c) then Then(f, Less(Row(f), 2), 0, 2)
      else Moves(f)
  {
    hide TripleStage, CStr, Then, Less, Row, Upper;
    TripleGoes(f);
  }

  /** Two operators with anything but a parenthesis between, two logic operators with anything
      between: the first one stays. */
  lemma OperatorFirst(f: Folding)
    requires Three(f) && (f.w[f.left].typ == 'o' || f.w[f.left].typ == '&')
    ensures var a, b, c := f.w[f.left], f.w[f.left + 1], f.w[f.left + 2];
      if c.typ == a.typ && (a.typ == 'o' ==> b.typ != '(') then Then(f, Less(Row(f), 2), 0, 0) else Moves(f)
  {
    hide TripleStage, Then, Less, Row, Upper;
    TripleGoes(f);
  }

  /** Signs before an operand or a function go, and before a parenthesis too but behind a
      keyword; so does the dot in `select . name`. */
  lemma KeywordFirst(f: Folding)
    requires Three(f) && f.w[f.left].typ in ['k', 'E', 'B']
    ensures var a, b, c := f.w[f.left], f.w[f.left + 1], f.w[f.left + 2];
      if (Sign(b.Lex()) && (Operand(c.typ) || c.typ == 'f' || (c.typ == '(' && a.typ != 'k')))
         || (a.typ == 'E' && b.typ == '.' && c.typ == 'n')
      then Then(f, Less(Row(f)[f.left + 1 := c], 1), 0, 0)
      else Moves(f)
  {
    hide TripleStage, Sign, Then, Less, Row, Upper;
    Signs(f.w[f.left + 1].Lex());
    TripleGoes(f);
  }

  /** Behind a comma a sign goes too; before an operand so do the last two tokens left. */
  lemma CommaFirst(f: Folding)
    requires Three(f) && f.w[f.left].typ == ','
    ensures var b, c := f.w[f.left + 1], f.w[f.left + 2];
      if Sign(b.Lex()) && (c.typ == '(' || c.typ == 'f') then Then(f, Less(Row(f)[f.left + 1 := c], 1), 0, 0)
      else if Sign(b.Lex()) && Operand(c.typ) then Then(f, Less(Row(f)[f.left + 1 := c], 3), 0, 0)
      else Moves(f)
  {
    hide TripleStage, Sign, Then, Less, Row, Upper;
    Signs(f.w[f.left + 1].Lex());
    TripleGoes(f);
  }

  /** USER with arguments is no function. */
  lemma FunctionFirst(f: Folding)
    requires Three(f) && f.w[f.left].typ == 'f'
    ensures var a, b, c := f.w[f.left], f.w[f.left + 1], f.w[f.left + 2];
      if b.typ == '(' && c.typ != ')' && Upper(a.val) == "USER" then
        Then(f, Row(f)[f.left := a.(typ := 'n')], f.left + 1, 0)
      else Moves(f)
  {
    hide TripleStage, Then, Less, Row, Upper;
    TripleGoes(f);
  }

  lemma OthersFirst(f: Folding)
    requires Three(f) && f.w[f.left].typ !in ['1', 'n', 'v', 's', 'o', '&', 'k', 'E', 'B', ',', 'f']
    ensures Moves(f)
  {
    hide TripleStage, Then, Less, Row, Upper;
    TripleGoes(f);
  }
}
