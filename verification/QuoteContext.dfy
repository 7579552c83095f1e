/** A quoted context stands for an opening quote in front of the input: folding s inside a
    quote is folding the quote and s outside one, one byte further on. */
module QuoteContext {
  import opened Bytes
  import opened Tokens
  import opened Scanners
  import opened ScannerFacts
  import opened Tokenizer
  import opened FoldRules
  import opened Fold
  import opened FoldRun
  import opened Verdict

  /** a: s in a quoted context. b: the quote and s, in no quoted context, same dialect. */
  ghost predicate Opens(a: Job, b: Job, q: byte) {
    && (q == '\'' || q == '"')
    && a.s != [] && b.s == [q] + a.s && a.lookup == b.lookup
    && a.flags.Quoted() && a.flags.Delim() == q && !b.flags.Quoted()
    && a.flags.ansi == b.flags.ansi && a.flags.mysql == b.flags.mysql
  }

  /** A tagged string opens at p, and it closes. */
  predicate TagCloses(s: bytes, p: nat) { p <= |s| && OpensTag(s[p..]) && TagClose(s, p) <= |s| }

  /** It would not close if the input began one byte earlier: its opening tag would reach into
      the searched part, or its closing tag would leave it. */
  predicate TagSlips(s: bytes, p: nat) {
    && TagCloses(s, p)
    && var t := TagLength(s[p..]);
       p == t - 1 || TagClose(s, p) + t == |s| - p
  }

  /** What a tagged string at p is read as. */
  function Tagged(s: bytes, p: nat): Scan {
    if p <= |s| && OpensTag(s[p..]) then MoneyTag(s, p) else White()
  }

  /** The string at p + 1 of s2 closes where that at p of s does, one byte further on. */
  predicate SameClose(s: bytes, s2: bytes, p: nat) {
    TagCloses(s, p) && TagCloses(s2, p + 1) && TagClose(s2, p + 1) == TagClose(s, p) + 1
  }

  lemma SameDialect(r: bytes, f: Flags, g: Flags, lookup: Lookup)
    requires r != [] && f.ansi == g.ansi && f.mysql == g.mysql
    ensures ScanHere(r, f, lookup) == ScanHere(r, g, lookup)
  {
    hide Word, Number, StringCore, MoneyTag, EString, UString, QStringCore, NqString, DigitString, Tick,
         Var, Money, BWord, Operator2, Backslash, EolComment, Slash, Plain;
  }

  /** s2 is q and s, and a tag opens at p in s, that is at p + 1 in s2. */
  predicate TagBehind(s: bytes, s2: bytes, q: byte, p: nat) {
    && 1 <= p <= |s| && OpensTag(s[p..])
    && p + 1 <= |s2| && OpensTag(s2[p + 1..])
    && s2 == [q] + s && s2[p + 1..] == s[p..]
  }

  lemma OpensTagShift(s: bytes, q: byte, p: nat)
    requires 1 <= p <= |s|
    ensures ([q] + s)[p + 1..] == s[p..]
    ensures OpensTag(s[p..]) <==> TagBehind(s, [q] + s, q, p)
  {
    hide OpensTag;
    assert ([q] + s)[p + 1..] == s[p..];
  }

  lemma OccursShifted(needle: bytes, s: bytes, q: byte, k: nat)
    ensures OccursAt(needle, [q] + s, k + 1) <==> OccursAt(needle, s, k)
  {
    if k + |needle| <= |s| { assert ([q] + s)[k + 1..k + 1 + |needle|] == s[k..k + |needle|]; }
  }

  lemma NoDollarInLetters()
    ensures !Accepts(LETTERS, '$')
  {
  }

  /** A tag is a dollar sign, letters, and a dollar sign. */
  lemma TagLooks(r: bytes)
    requires OpensTag(r)
    ensures var t := TagLength(r);
      r[0] == r[t - 1] == '$' && forall k {:trigger r[k]} :: 0 < k < t - 1 ==> r[k] != '$'
  {
    hide Accepts, LETTERS, MONEY_CHARS;
    NoDollarInLetters();
    forall k | 0 < k < TagLength(r) - 1 ensures r[k] != '$' { assert Accepts(LETTERS, r[1..][k - 1]); }
  }

  /** The tag itself stands at p, and nowhere else before its closing dollar sign. */
  lemma TagStandsAlone(s: bytes, p: nat, k: nat)
    requires p <= |s| && OpensTag(s[p..])
    ensures var t := TagLength(s[p..]);
      && OccursAt(s[p..][..t], s, p)
      && (p < k < p + t - 1 ==> !OccursAt(s[p..][..t], s, k))
  {
    hide OpensTag, TagLength;
    var r := s[p..];
    var t := TagLength(r);
    TagLooks(r);
    assert r[..t] == s[p..p + t];
    if p < k < p + t - 1 {
      assert s[k] == r[k - p] != '$';
      if k + t <= |s| { assert s[k..k + t][0] == s[k] != r[..t][0]; }
    }
  }

  /** Where the closing tag is searched: from t, among places that leave p bytes unread. */
  lemma TagCloseMeans(s: bytes, p: nat, at: nat)
    requires p <= |s| && OpensTag(s[p..])
    ensures var t := TagLength(s[p..]);
      var tag := s[p..][..t];
      TagClose(s, p) == at <= |s| <==>
        p + t <= at && at + t <= |s| - p && OccursAt(tag, s, at)
        && forall k: nat :: t <= k < at ==> !OccursAt(tag, s, k)
  {
    var t := TagLength(s[p..]);
    var tag := s[p..][..t];
    var h := s[..|s| - p];
    forall k: nat ensures OccursAt(tag, h, k) <==> OccursAt(tag, s, k) && k + t <= |s| - p {
      OccursInPrefix(tag, s, |s| - p, k);
    }
    var first := FirstAt(tag, h, t);
    if at <= |s| && p + t <= at && at + t <= |s| - p && OccursAt(tag, s, at)
       && forall k: nat :: t <= k < at ==> !OccursAt(tag, s, k) {
      assert OccursAt(tag, h, at);
      assert first == at;
    }
  }

  /** The close found one byte further on, if the string closes and does not slip. */
  lemma TagCloseStays(s: bytes, s2: bytes, q: byte, p: nat)
    requires TagBehind(s, s2, q, p) && TagCloses(s, p) && !TagSlips(s, p)
    ensures SameClose(s, s2, p)
  {
    hide OpensTag, FirstAt, TagClose, OccursAt;
    var t := TagLength(s[p..]);
    var tag := s[p..][..t];
    var at := TagClose(s, p);
    TagStandsAlone(s, p, t - 1);
    TagStandsAlone(s, p, p);
    TagCloseMeans(s, p, at);
    OccursShifted(tag, s, q, at);
    forall k: nat | t <= k < at + 1 ensures !OccursAt(tag, s2, k) { OccursShifted(tag, s, q, k - 1); }
    TagCloseMeans(s2, p + 1, at + 1);
  }

  /** A string that closes one byte further on closes here and does not slip. */
  lemma TagCloseReturns(s: bytes, s2: bytes, q: byte, p: nat)
    requires TagBehind(s, s2, q, p) && TagCloses(s2, p + 1)
    ensures TagCloses(s, p) && !TagSlips(s, p)
  {
    hide OpensTag, FirstAt, TagClose, OccursAt;
    var t := TagLength(s[p..]);
    var tag := s[p..][..t];
    var at2 := TagClose(s2, p + 1);
    TagStandsAlone(s, p, p);
    TagCloseMeans(s2, p + 1, at2);
    OccursShifted(tag, s, q, at2 - 1);
    forall k: nat | t - 1 <= k < at2 - 1 ensures !OccursAt(tag, s, k) { OccursShifted(tag, s, q, k); }
    TagCloseMeans(s, p, at2 - 1);
  }

  /** Only a string that closes has a closing mark; one that does not takes all the rest. */
  lemma Unclosed(s: bytes, p: nat)
    requires p <= |s| && OpensTag(s[p..])
    ensures var sc := MoneyTag(s, p);
      && sc.tok.typ == STRING && sc.tok.pos == TagLength(s[p..])
      && sc.tok.strClose == (if TagClose(s, p) <= |s| then '$' else NUL)
      && (TagClose(s, p) > |s| ==>
            sc == Quoted(|s| - p, TagLength(s[p..]), s[p..][TagLength(s[p..])..], '$', NUL))
  {
    hide OpensTag, TagClose, Cut, TagLength;
  }

  /** One byte further on, a string that slips stays open and takes all the rest. */
  lemma SlipsOpen(s: bytes, s2: bytes, q: byte, p: nat)
    requires TagBehind(s, s2, q, p) && TagSlips(s, p)
    ensures var sc, sc' := Tagged(s, p), Tagged(s2, p + 1);
      && sc.tok.typ == sc'.tok.typ == STRING && sc'.tok.pos == sc.tok.pos
      && sc.tok.strClose == '$' && sc'.tok.strClose == NUL && sc'.len == |s| - p
  {
    hide OpensTag, TagClose, Cut, TagLength, MoneyTag;
    if TagCloses(s2, p + 1) {
      TagCloseReturns(s, s2, q, p);
      assert false;
    }
    Unclosed(s, p);
    Unclosed(s2, p + 1);
  }

  /** A tagged string scans the same one byte further on exactly when it does not slip. */
  lemma TagShift(s: bytes, s2: bytes, q: byte, p: nat)
    requires TagBehind(s, s2, q, p)
    ensures Tagged(s2, p + 1) == Tagged(s, p) <==> !TagSlips(s, p)
  {
    hide OpensTag, TagClose, Cut, TagLength;
    var t := TagLength(s[p..]);
    var at := TagClose(s, p);
    if TagSlips(s, p) {
      SlipsOpen(s, s2, q, p);
    } else if TagCloses(s, p) {
      TagCloseStays(s, s2, q, p);
      assert s2[p + 1 + t..at + 1] == s[p + t..at];
    } else {
      if TagCloses(s2, p + 1) {
        TagCloseReturns(s, s2, q, p);
        assert false;
      }
      Unclosed(s, p);
      Unclosed(s2, p + 1);
    }
  }

  /** Every scanner call reads the same one byte further on, unless it reads a string that
      slips. */
  lemma ScanShift(a: Job, b: Job, q: byte, p: nat)
    requires Opens(a, b, q) && 1 <= p < |a.s|
    ensures ScanAt(b.s, p + 1, b.flags, b.lookup) == ScanAt(a.s, p, a.flags, a.lookup) <==>
      !TagSlips(a.s, p)
  {
    hide OpensTag, MoneyTag, ScanHere;
    OpensTagShift(a.s, q, p);
    if OpensTag(a.s[p..]) {
      TagShift(a.s, b.s, q, p);
    } else {
      SameDialect(a.s[p..], a.flags, b.flags, a.lookup);
    }
  }

  /** The scanner, started at p, comes to a tagged string that slips. */
  predicate MeetsSlip(job: Job, p: nat)
    requires p <= |job.s|
    decreases |job.s| - p
  {
    hide ScanAt, TagSlips;
    if p == |job.s| then false
    else
      ScanSound(job.s, p, job.flags, job.lookup);
      TagSlips(job.s, p)
      || MeetsSlip(job, p + ScanAt(job.s, p, job.flags, job.lookup).len)
  }

  /** A pass in a quoted context comes to a tagged string that slips. */
  predicate Slips(job: Job) { MeetsSlip(job, NextToken(job, Tokenizer.START).c.src) }

  /** No tagged string slips, whether the scanner comes to it or not. */
  ghost predicate TagsStay(s: bytes) {
    forall p: nat :: p >= 1 ==> !TagSlips(s, p)
  }

  lemma {:induction false} MeetsNone(job: Job, p: nat)
    requires TagsStay(job.s) && 1 <= p <= |job.s|
    ensures !MeetsSlip(job, p)
    decreases |job.s| - p
  {
    hide ScanAt, TagSlips, OpensTag;
    if p == |job.s| {
    } else {
      ScanSound(job.s, p, job.flags, job.lookup);
      MeetsNone(job, p + ScanAt(job.s, p, job.flags, job.lookup).len);
    }
  }

  /** A condition on the input alone. */
  lemma NothingSlips(job: Job)
    requires TagsStay(job.s) && job.s != []
    ensures !Slips(job)
  {
    hide NextToken, MeetsSlip;
    MeetsNone(job, NextToken(job, Tokenizer.START).c.src);
  }

  function OneOn(c: Cursor): Cursor { c.(src := c.src + 1) }

  function NextOn(n: Tokenizer.Next): Tokenizer.Next {
    match n
    case Exhausted(c) => Exhausted(OneOn(c))
    case Found(c, t) => Found(OneOn(c), t.Moved(1))
  }

  /** t read at the end of one run as an open string is what the other run reads as a closed
      one, a byte further on. */
  predicate ReadsOpen(t: Token, u: Token) {
    && t.typ == u.typ == STRING && u.pos == t.pos + 1
    && t.strClose == '$' && u.strClose == NUL
  }

  /** n read from p in a quoted context, m one byte further on: the same, unless n is the
      string that slips, which m takes with all the rest. */
  ghost predicate Twins(a: Job, p: nat, n: Tokenizer.Next, m: Tokenizer.Next)
    requires p <= |a.s| && n.c.src <= |a.s|
  {
    if m == NextOn(n) then MeetsSlip(a, p) == MeetsSlip(a, n.c.src)
    else MeetsSlip(a, p) && n.Found? && m.Found? && ReadsOpen(n.tok, m.tok) && m.c.src == |a.s| + 1
  }

  lemma SlipHasTag(s: bytes, p: nat)
    requires TagSlips(s, p)
    ensures p <= |s| && OpensTag(s[p..])
  {
    hide OpensTag;
  }

  lemma ScanTag(s: bytes, p: nat, flags: Flags, lookup: Lookup)
    requires p < |s| && OpensTag(s[p..])
    ensures ScanAt(s, p, flags, lookup) == MoneyTag(s, p)
  {
    hide OpensTag, MoneyTag, ScanHere;
  }

  lemma {:induction false} AdvanceShift(a: Job, b: Job, q: byte, c: Cursor)
    requires Opens(a, b, q) && 1 <= c.src <= |a.s|
    ensures Twins(a, c.src, Advance(a, c), Advance(b, OneOn(c)))
    decreases |a.s| - c.src
  {
    hide ScanAt, Spans, OpensTag, TagSlips, MoneyTag;
    if c.src == |a.s| {
    } else {
      ScanFollows(a, c);
      ScanFollows(b, OneOn(c));
      ScanShift(a, b, q, c.src);
      var sc := ScanAt(a.s, c.src, a.flags, a.lookup);
      if TagSlips(a.s, c.src) {
        SlipHasTag(a.s, c.src);
        ScanTag(a.s, c.src, a.flags, a.lookup);
        OpensTagShift(a.s, q, c.src);
        SlipsOpen(a.s, b.s, q, c.src);
        ScanTag(b.s, c.src + 1, b.flags, b.lookup);
      } else if sc.tok.typ == NUL {
        AdvanceShift(a, b, q, c.After(sc));
      }
    }
  }

  lemma NextShift(a: Job, b: Job, q: byte, c: Cursor)
    requires Opens(a, b, q) && 1 <= c.src <= |a.s|
    ensures Twins(a, c.src, NextToken(a, c), NextToken(b, OneOn(c)))
  {
    hide StringCore, Advance, MeetsSlip;
    AdvanceShift(a, b, q, c);
  }

  /** The opening string, with the simulated quote and with the real one. */
  lemma StringShift(s: bytes, q: byte)
    ensures var sa, sb := StringCore(s, q, 0), StringCore([q] + s, q, 1);
      && sb.len == sa.len + 1 && sa.ddx == sb.ddx == sa.hash == sb.hash == 0
      && sa.tok.typ == STRING && sa.tok.strOpen == NUL && sb.tok == sa.tok.Moved(1).(strOpen := q)
  {
    hide ClosingQuote;
    assert ([q] + s)[1..] == s && s[0..] == s;
  }

  lemma ScanQuote(s: bytes, p: nat, flags: Flags, lookup: Lookup)
    requires p < |s| && (s[p] == '\'' || s[p] == '"')
    ensures ScanAt(s, p, flags, lookup) == StringCore(s[p..], s[p], 1)
  {
    hide Word, Number, StringCore, MoneyTag, EString, UString, QStringCore, NqString, DigitString, Tick, Var,
         Money, BWord, Operator2, EolComment, Slash, Dash, Hash;
  }

  /** The first token of the two runs: the same string, with a simulated and a real quote. */
  lemma FirstNextShift(a: Job, b: Job, q: byte)
    requires Opens(a, b, q)
    ensures var n, m := NextToken(a, Tokenizer.START), NextToken(b, Tokenizer.START);
      && n.Found? && m.Found? && m.c == OneOn(n.c) && 1 <= n.c.src
      && n.tok.typ == STRING && n.tok.strOpen == NUL
      && m.tok == n.tok.Moved(1).(strOpen := q)
  {
    hide ScanAt, StringCore, Spans;
    StringShift(a.s, q);
    assert b.s[0..] == b.s;
    ScanQuote(b.s, 0, b.flags, b.lookup);
    StringCoreSound(a.s, q, 0);
  }

  lemma NoSkip(t: Token)
    requires t.typ == STRING
    ensures !Skippable(t)
  {
  }

  lemma FirstShift(a: Job, b: Job, q: byte)
    requires Opens(a, b, q)
    ensures FirstToken(a, Tokenizer.START) == NextToken(a, Tokenizer.START)
    ensures FirstToken(b, Tokenizer.START) == NextToken(b, Tokenizer.START)
  {
    hide NextToken, Skippable;
    FirstNextShift(a, b, q);
    NoSkip(NextToken(a, Tokenizer.START).tok);
    NoSkip(NextToken(b, Tokenizer.START).tok);
  }

  function AllOn(ts: seq<Token>): seq<Token> {
    seq(|ts|, i requires 0 <= i < |ts| => ts[i].Moved(1))
  }

  /** us is ts one byte further on up to a token that us reads as an open string, its last. */
  ghost predicate CutShort(ts: seq<Token>, us: seq<Token>) {
    && 1 <= |us| <= |ts| && ReadsOpen(ts[|us| - 1], us[|us| - 1])
    && (forall i :: 0 <= i < |us| - 1 ==> us[i] == ts[i].Moved(1))
  }

  lemma NoneAtTheEnd(a: Job)
    ensures !MeetsSlip(a, |a.s|)
  {
  }

  lemma NothingLeft(b: Job, c: Cursor)
    requires c.src == |b.s| > 0
    ensures NextToken(b, c) == Exhausted(c) && AllTokens(b, c) == []
  {
  }

  lemma {:induction false} RestShift(a: Job, b: Job, q: byte, c: Cursor)
    requires Opens(a, b, q) && 1 <= c.src <= |a.s|
    ensures var ts, us := AllTokens(a, c), AllTokens(b, OneOn(c));
      if MeetsSlip(a, c.src) then CutShort(ts, us) else us == AllOn(ts)
    decreases |a.s| - c.src
  {
    hide NextToken, Spans, MeetsSlip, ReadsOpen;
    NextShift(a, b, q, c);
    match NextToken(a, c)
    case Exhausted(_) => assert !MeetsSlip(a, |a.s|) by { NoneAtTheEnd(a); }
    case Found(d, t) =>
      if NextToken(b, OneOn(c)) == NextOn(NextToken(a, c)) {
        RestShift(a, b, q, d);
      } else {
        NothingLeft(b, NextToken(b, OneOn(c)).c);
      }
  }

  lemma CutDiffers(ts: seq<Token>, us: seq<Token>)
    requires CutShort(ts, us)
    ensures us != AllOn(ts)
  {
    assert us[|us| - 1] != ts[|us| - 1].Moved(1);
  }

  /** The tokens of the two runs are the same one byte further on, but for the mark of the
      first string's opening quote, exactly when no tagged string slips on the way. If one
      does, it is the last token of the run with the real quote. */
  lemma TokensShift(a: Job, b: Job, q: byte)
    requires Opens(a, b, q)
    ensures var ts, us := AllTokens(a, Tokenizer.START), AllTokens(b, Tokenizer.START);
      && ts != [] && us != [] && ts[0].typ == STRING && us[0] == ts[0].Moved(1).(strOpen := q)
      && (us[1..] == AllOn(ts[1..]) <==> !Slips(a))
      && (Slips(a) ==> CutShort(ts[1..], us[1..]))
  {
    hide ScanAt, StringCore, Spans, Advance, MeetsSlip, CutShort;
    FirstNextShift(a, b, q);
    var n := NextToken(a, Tokenizer.START);
    RestShift(a, b, q, n.c);
    var ts, us := AllTokens(a, Tokenizer.START), AllTokens(b, Tokenizer.START);
    assert ts[1..] == AllTokens(a, n.c) && us[1..] == AllTokens(b, OneOn(n.c));
    if Slips(a) { CutDiffers(ts[1..], us[1..]); }
  }

  /** The windows of the two runs. */
  ghost predicate Same(q: byte, w: seq<Token>, v: seq<Token>, n: nat)
    requires n <= |w| == |v|
  {
    && 1 <= n
    && w[0].typ == STRING && w[0].strOpen == NUL && v[0] == w[0].Moved(1).(strOpen := q)
    && (forall i :: 1 <= i < n ==> v[i] == w[i].Moved(1))
  }

  /** g is f one byte further on, and no tagged string slips from there on. */
  ghost predicate Shadow(a: Job, q: byte, f: Folding, g: Folding)
    requires Inv(a, f)
  {
    && 1 <= f.c.src && g.c == OneOn(f.c) && !MeetsSlip(a, f.c.src)
    && g.pos == f.pos && g.left == f.left && g.more == f.more && g.folds == f.folds
    && |g.w| == WINDOW && Same(q, f.w, g.w, f.pos)
    && g.comment.typ == f.comment.typ
    && (f.comment.typ == COMMENT ==> g.comment == f.comment.Moved(1))
  }

  ghost predicate ShadowOutcome(q: byte, o: Outcome, p: Outcome) {
    && p.c == OneOn(o.c) && p.folds == o.folds && p.n == o.n <= |o.w| == |p.w|
    && Same(q, o.w, p.w, o.n)
  }

  lemma FetchShift(a: Job, b: Job, q: byte, f: Folding, g: Folding)
    requires Opens(a, b, q) && Inv(a, f) && Inv(b, g) && Shadow(a, q, f, g) && f.pos <= MAX_TOKENS && f.more
    ensures var f', g' := Fetch(a, f), Fetch(b, g);
      Inv(a, f') && Inv(b, g') && Shadow(a, q, f', g')
  {
    hide MeetsSlip, NextToken, Spans;
    FetchFacts(a, f);
    FetchFacts(b, g);
    NextShift(a, b, q, f.c);
  }

  lemma {:induction false} FillShift(a: Job, b: Job, q: byte, f: Folding, g: Folding, n: nat)
    requires Opens(a, b, q) && Inv(a, f) && Inv(b, g) && Shadow(a, q, f, g)
    ensures Shadow(a, q, Fill(a, f, n), Fill(b, g, n))
    decreases Potential(a, f)
  {
    hide MeetsSlip, Fetch, Same;
    if !f.more || f.pos > MAX_TOKENS || f.pos - f.left >= n {
    } else {
      FetchFacts(a, f);
      FetchFacts(b, g);
      FetchShift(a, b, q, f, g);
      FillShift(a, b, q, Fetch(a, f), Fetch(b, g), n);
    }
  }

  lemma StringsStartNoPhrase(lookup: Lookup, a: Lexeme, b: Lexeme)
    ensures a.typ == STRING ==> PhraseType(lookup, a, b) == NUL
  {
  }

  /** No rule edits a string under the cursor, and those that drop two or three tokens do so
      only where at least one is left. */
  lemma StringsStay(lookup: Lookup, a: Lexeme, b: Lexeme, c: Lexeme)
    ensures a.typ == STRING ==>
      && PairRule(lookup, a, b).edit == Leave && PairRule(lookup, a, b).drop <= 1
      && TripleRule(a, b, c).edit == Leave && TripleRule(a, b, c).drop <= 2
  {
    hide PhraseType;
    StringsStartNoPhrase(lookup, a, b);
  }

  lemma ApplyShift(a: Job, b: Job, q: byte, f: Folding, g: Folding, r: Ruling)
    requires Inv(a, f) && Inv(b, g) && Shadow(a, q, f, g) && f.left + 2 <= f.pos && r.drop < f.pos
    requires r.edit == ThirdOntoSecond ==> f.left + 3 <= f.pos
    requires f.left == 0 ==> r.edit == Leave
    requires Inv(a, Apply(f, r)) && Inv(b, Apply(g, r))
    ensures Shadow(a, q, Apply(f, r), Apply(g, r))
  {
    hide MeetsSlip;
  }

  /** No five tokens that start with a string collapse. */
  lemma NoSqueeze(f: Folding)
    requires |f.w| == WINDOW && f.w[0].typ == STRING
    ensures Squeeze(f) == f
  {
  }

  lemma DropsLeaveOne(lookup: Lookup, a: Lexeme, b: Lexeme)
    ensures PairRule(lookup, a, b).drop == 2 ==> a.typ == LEFTBRACE
  {
    hide PhraseType;
  }

  lemma PairApplyShift(a: Job, b: Job, q: byte, f: Folding, g: Folding)
    requires Opens(a, b, q) && Inv(a, f) && Inv(b, g) && Shadow(a, q, f, g) && f.left + 2 <= f.pos
    ensures var r := PairRuling(a, f);
      && PairRuling(b, g) == r && r.drop < f.pos
      && Inv(a, Apply(f, r)) && Inv(b, Apply(g, r)) && Shadow(a, q, Apply(f, r), Apply(g, r))
  {
    hide MeetsSlip, PairRule, TripleRule, Edited;
    var x, y := f.w[f.left].Lex(), f.w[f.left + 1].Lex();
    assert g.w[f.left].Lex() == x && g.w[f.left + 1].Lex() == y;
    PairRuleShape(a.lookup, x, y);
    StringsStay(a.lookup, x, y, y);
    DropsLeaveOne(a.lookup, x, y);
    ApplyShift(a, b, q, f, g, PairRuling(a, f));
  }

  lemma TripleStageShift(a: Job, b: Job, q: byte, f: Folding, g: Folding)
    requires Opens(a, b, q) && Inv(a, f) && Inv(b, g) && Shadow(a, q, f, g)
    ensures TripleStage(f).Next? && TripleStage(g).Next?
    ensures Inv(a, TripleStage(f).f) && Shadow(a, q, TripleStage(f).f, TripleStage(g).f)
  {
    hide MeetsSlip, TripleRule, PairRule, Edited;
    if f.pos - f.left >= 3 {
      var x, y, z := f.w[f.left].Lex(), f.w[f.left + 1].Lex(), f.w[f.left + 2].Lex();
      assert g.w[f.left].Lex() == x && g.w[f.left + 1].Lex() == y && g.w[f.left + 2].Lex() == z;
      TripleRuleShape(x, y, z);
      StringsStay(a.lookup, x, y, z);
      ApplyShift(a, b, q, f, g, TripleRuling(f));
    }
  }

  lemma PairStageShift(a: Job, b: Job, q: byte, f: Folding, g: Folding)
    requires Opens(a, b, q) && Inv(a, f) && Inv(b, g) && Shadow(a, q, f, g) && f.left + 2 <= f.pos
    ensures match PairStage(a, f)
      case Next(f') => PairStage(b, g).Next? && Inv(a, f') && Shadow(a, q, f', PairStage(b, g).f)
      case Done(o) => PairStage(b, g).Done? && ShadowOutcome(q, o, PairStage(b, g).o)
  {
    hide MeetsSlip, Fill, PairRule, TripleStage, Edited;
    PairApplyShift(a, b, q, f, g);
    PairRuleShape(a.lookup, f.w[f.left].Lex(), f.w[f.left + 1].Lex());
    var r := PairRuling(a, f);
    if r.control == GoOn {
      FillShift(a, b, q, Apply(f, r), Apply(g, r), 3);
      TripleStageShift(a, b, q, Fill(a, Apply(f, r), 3), Fill(b, Apply(g, r), 3));
    }
  }

  lemma StepShift(a: Job, b: Job, q: byte, f: Folding, g: Folding)
    requires Opens(a, b, q) && Inv(a, f) && Inv(b, g) && Shadow(a, q, f, g)
    ensures match Step(a, f)
      case Next(f') => Step(b, g).Next? && Inv(a, f') && Inv(b, Step(b, g).f) && Shadow(a, q, f', Step(b, g).f)
      case Done(o) => Step(b, g).Done? && ShadowOutcome(q, o, Step(b, g).o)
  {
    hide MeetsSlip, Fill, PairStage, Squeeze;
    StepInv(a, f);
    StepInv(b, g);
    NoSqueeze(f);
    NoSqueeze(g);
    if f.more && f.left < MAX_TOKENS {
      FillShift(a, b, q, f, g, 2);
      var f2, g2 := Fill(a, f, 2), Fill(b, g, 2);
      if f2.pos - f2.left >= 2 { PairStageShift(a, b, q, f2, g2); }
    }
  }

  lemma {:induction false} RunShift(a: Job, b: Job, q: byte, f: Folding, g: Folding)
    requires Opens(a, b, q) && Inv(a, f) && Inv(b, g) && Shadow(a, q, f, g)
    ensures ShadowOutcome(q, Run(a, f), Run(b, g))
    decreases Rank(a, f)
  {
    hide MeetsSlip, Step, Rank, Shadow, ShadowOutcome;
    StepInv(a, f);
    StepInv(b, g);
    StepShift(a, b, q, f, g);
    match Step(a, f)
    case Next(f') => RunShift(a, b, q, f', Step(b, g).f);
    case Done(_) =>
  }

  /** The two runs fold to the same tokens. */
  lemma FoldShift(a: Job, b: Job, q: byte)
    requires Opens(a, b, q) && !Slips(a)
    ensures ShadowOutcome(q, FoldAll(a, Tokenizer.START, EMPTY_WINDOW, 0), FoldAll(b, Tokenizer.START, EMPTY_WINDOW, 0))
  {
    hide MeetsSlip, FirstToken, NextToken, Run, ShadowOutcome;
    FirstShift(a, b, q);
    FirstNextShift(a, b, q);
    var n, m := FirstToken(a, Tokenizer.START), FirstToken(b, Tokenizer.START);
    RunShift(a, b, q, Opening(n.c, EMPTY_WINDOW, n.tok, 0), Opening(m.c, EMPTY_WINDOW, m.tok, 0));
  }
}
