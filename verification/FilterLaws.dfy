/** The verdict of one pass, case by case: when a fingerprint that is in the table of known
    attacks counts, told over the tokens of the input. Fingerprints are written out. */
module FilterLaws {
  import opened Bytes
  import opened Tokens
  import opened Keywords
  import opened Tokenizer
  import opened Fold
  import opened FoldRun
  import opened FoldFacts
  import opened FoldStream
  import opened Verdict

  function TheJob(table: seq<Keyword>, s: bytes, flags: Flags): Job { Job(s, flags, Dictionary(table)) }

  /** An empty back-quoted name that is never closed, behind at least two tokens. */
  predicate Disguised(o: Outcome)
    requires o.n <= |o.w|
  {
    o.n > 2 && var t := o.w[o.n - 1]; t.typ == 'n' && t.val == [] && t.strOpen == '`' && t.strClose as int == 0
  }

  function TypeIn(o: Outcome, i: nat): byte
    requires i < o.n <= |o.w|
  {
    if i == o.n - 1 && Disguised(o) then 'c' else o.w[i].typ
  }

  /** The fingerprint holds the types of the tokens that folding returns, a disguised comment
      unmasked; if one of them is evil it is "X" instead. */
  lemma FingerprintReads(job: Job)
    ensures var o, p := FoldAll(job, Tokenizer.START, EMPTY_WINDOW, 0), Fingerprint(job);
      && p.c == o.c && |p.w| == WINDOW && o.n <= |o.w|
      && if exists i :: 0 <= i < o.n && TypeIn(o, i) == 'X' then
           p.fp == ['X'] && p.w[0].typ == 'X' && p.w[0].val == ['X'] && p.w[1].typ as int == 0
         else
           && |p.fp| == o.n && (forall i :: 0 <= i < o.n ==> p.fp[i] == TypeIn(o, i))
           && (forall i :: 0 <= i < o.n ==> p.w[i] == o.w[i].(typ := TypeIn(o, i)))
  {
    hide FoldAll;
    var o := FoldAll(job, Tokenizer.START, EMPTY_WINDOW, 0);
    var w := Unmasked(o.w, o.n);
    var fp := Types(w, o.n);
    forall i | 0 <= i < o.n ensures fp[i] == TypeIn(o, i) && w[i] == o.w[i].(typ := TypeIn(o, i)) {
    }
  }

  /** A fingerprint is known if the table has it with a 0 in front, in upper case, as type F. */
  lemma KnownFingerprints(table: seq<Keyword>, fp: bytes)
    requires IsTable(table)
    ensures Blacklisted(table, fp) <==>
      fp != [] && exists i :: 0 <= i < |table| && table[i].word == ['0'] + Upper(fp) && table[i].typ == 'F'
  {
    hide IsTable, Upper;
    var word := ['0'] + Upper(fp);
    if i :| 0 <= i < |table| && table[i].word == word {
      TypeAt(table, i);
      forall j | 0 <= j < |table| && table[j].word == word ensures table[j].typ == table[i].typ {
        TypeAt(table, j);
      }
    } else {
      TypeAbsent(table, word);
    }
  }

  lemma UpperCase(s: bytes, i: nat)
    requires i < |s|
    ensures |Upper(s)| == |s|
    ensures Upper(s)[i] as int == if 'a' <= s[i] <= 'z' then s[i] as int - 32 else s[i] as int
  {
  }

  /** For short fingerprints the counter of tokens is the number of tokens in the input. */
  lemma AllCounted(job: Job)
    ensures var p := Fingerprint(job);
      0 < |p.fp| < 5 && p.fp != ['X'] ==> |p.fp| <= p.c.tokens == |Stream(job)|
  {
    hide FoldAll, Stream, Skipped, Fingerprint, NoCommentWords;
    var p, o := Fingerprint(job), FoldAll(job, Tokenizer.START, EMPTY_WINDOW, 0);
    FingerprintReads(job);
    FoldStarts(job);
    FoldAllFolded(job, Tokenizer.START, EMPTY_WINDOW, 0);
    if 0 < |p.fp| < 5 && p.fp != ['X'] {
      FoldEndsWell(job);
      assert TypeIn(o, o.n - 1) == p.fp[o.n - 1];
    }
  }

  /** The comment of the audit log is named. */
  ghost predicate NamesPassword(s: bytes, fp: bytes) {
    && |fp| > 1 && fp[|fp| - 1] == 'c'
    && exists k: nat :: OccursAt(['s', 'p', '_', 'p', 'a', 's', 's', 'w', 'o', 'r', 'd'], s, k)
  }

  lemma PasswordFound(s: bytes)
    ensures FirstAt(SP_PASSWORD, s, 0) <= |s| <==>
      exists k: nat :: OccursAt(['s', 'p', '_', 'p', 'a', 's', 's', 'w', 'o', 'r', 'd'], s, k)
  {
    if k: nat :| OccursAt(SP_PASSWORD, s, k) { assert k <= |s|; }
  }

  /** The verdict is the filter's on what the pass leaves behind. */
  lemma VerdictIs(table: seq<Keyword>, s: bytes, flags: Flags)
    ensures var p := Fingerprint(TheJob(table, s, flags));
      && Readable(s, p) && |p.w| == WINDOW
      && (Detects(table, s, flags) <==>
            && Blacklisted(table, p.fp)
            && (NamesPassword(s, p.fp)
                || (if |p.fp| == 2 then PairIsAttack(s, p) else if |p.fp| == 3 then TripleIsAttack(p) else true)))
  {
    hide Fingerprint, Readable, PairIsAttack, TripleIsAttack, Blacklisted, FirstAt;
    FilterReadsInside(TheJob(table, s, flags));
    FingerprintShape(TheJob(table, s, flags));
    PasswordFound(s);
  }

  /** One token, four or five, or "X": what is known is an attack. */
  lemma OtherLengths(table: seq<Keyword>, s: bytes, flags: Flags)
    requires var n := |Fingerprint(TheJob(table, s, flags)).fp|; n != 2 && n != 3
    ensures Detects(table, s, flags) <==> Blacklisted(table, Fingerprint(TheJob(table, s, flags)).fp)
  {
    hide Fingerprint, Detects, Blacklisted, Readable;
    VerdictIs(table, s, flags);
  }

  lemma PasswordCounts(table: seq<Keyword>, s: bytes, flags: Flags)
    requires NamesPassword(s, Fingerprint(TheJob(table, s, flags)).fp)
    ensures Detects(table, s, flags) <==> Blacklisted(table, Fingerprint(TheJob(table, s, flags)).fp)
  {
    hide Fingerprint, Detects, Blacklisted, NamesPassword, Readable, PairIsAttack, TripleIsAttack;
    VerdictIs(table, s, flags);
  }

  /** A token and UNION: harmless if the input is no more than these two tokens. */
  lemma EndsInUnion(table: seq<Keyword>, s: bytes, flags: Flags)
    requires var fp := Fingerprint(TheJob(table, s, flags)).fp; |fp| == 2 && fp[1] == 'U'
    ensures var job := TheJob(table, s, flags);
      && |Stream(job)| >= 2
      && (Detects(table, s, flags) <==> Blacklisted(table, Fingerprint(job).fp) && |Stream(job)| > 2)
  {
    hide Fingerprint, Detects, Blacklisted, Readable, Stream;
    VerdictIs(table, s, flags);
    AllCounted(TheJob(table, s, flags));
  }

  /** What decides on two tokens, the second with text v. */
  predicate Begins(v: bytes, c: byte) { v != [] && v[0] == c }

  /** The window has the types of the fingerprint. */
  lemma WindowTypes(job: Job)
    ensures var p := Fingerprint(job);
      |p.w| == WINDOW && |p.fp| <= WINDOW && (p.fp != ['X'] ==> forall i :: 0 <= i < |p.fp| ==> p.w[i].typ == p.fp[i])
  {
    hide FoldAll, Fingerprint;
    FingerprintReads(job);
  }

  /** A name and a comment: only a comment in slashes counts. */
  lemma NameAndComment(table: seq<Keyword>, s: bytes, flags: Flags)
    requires var fp := Fingerprint(TheJob(table, s, flags)).fp; fp == "nc" && !NamesPassword(s, fp)
    ensures var p := Fingerprint(TheJob(table, s, flags));
      && |p.w| == WINDOW
      && (Detects(table, s, flags) <==> Blacklisted(table, p.fp) && Begins(p.w[1].val, '/'))
  {
    hide Fingerprint, Detects, Blacklisted, Readable, NamesPassword, Stream;
    VerdictIs(table, s, flags);
    WindowTypes(TheJob(table, s, flags));
  }

  /** The byte of the input behind as many bytes as the first token has is a blank or control
      character, or one of 128 or more, or there a comment starts. */
  predicate BlankOrComment(s: bytes, n: nat) {
    n < |s| && (s[n] as int <= 32 || s[n] as int >= 128 || PairAt(s, n, '/', '*') || PairAt(s, n, '-', '-'))
  }

  /** A number and a comment: one in slashes counts, one with a hash does not, and one with
      dashes does if more was folded into the number or it follows it directly. */
  lemma NumberAndComment(table: seq<Keyword>, s: bytes, flags: Flags)
    requires var fp := Fingerprint(TheJob(table, s, flags)).fp; fp == "1c" && !NamesPassword(s, fp)
    ensures var job := TheJob(table, s, flags);
      var p := Fingerprint(job);
      && |p.w| == WINDOW && |Stream(job)| >= 2
      && (Detects(table, s, flags) <==>
            && Blacklisted(table, p.fp) && !Begins(p.w[1].val, '#')
            && (Begins(p.w[1].val, '/') || |Stream(job)| > 2 || BlankOrComment(s, |p.w[0].val|)))
  {
    hide Fingerprint, Detects, Blacklisted, NamesPassword, Stream;
    VerdictIs(table, s, flags);
    AllCounted(TheJob(table, s, flags));
    WindowTypes(TheJob(table, s, flags));
  }

  /** Any other two tokens: not if the second starts with a hash, or with a dash and has more
      than two bytes. */
  lemma OtherPairs(table: seq<Keyword>, s: bytes, flags: Flags)
    requires var fp := Fingerprint(TheJob(table, s, flags)).fp;
      |fp| == 2 && fp[1] != 'U' && fp != "nc" && fp != "1c" && !NamesPassword(s, fp)
    ensures var p := Fingerprint(TheJob(table, s, flags));
      && |p.w| == WINDOW
      && (Detects(table, s, flags) <==>
            && Blacklisted(table, p.fp) && !Begins(p.w[1].val, '#')
            && !(Begins(p.w[1].val, '-') && |p.w[1].val| > 2))
  {
    hide Fingerprint, Detects, Blacklisted, Readable, NamesPassword, Stream;
    VerdictIs(table, s, flags);
    WindowTypes(TheJob(table, s, flags));
  }

  /** Two strings around an operator: only if the first has no opening quote, the last no
      closing quote, and the quotes between are of one kind. */
  lemma StringsAround(table: seq<Keyword>, s: bytes, flags: Flags)
    requires var fp := Fingerprint(TheJob(table, s, flags)).fp; fp == "sos" || fp == "s&s"
    ensures var p := Fingerprint(TheJob(table, s, flags));
      && |p.w| == WINDOW
      && (Detects(table, s, flags) <==>
            && Blacklisted(table, p.fp)
            && p.w[0].strOpen as int == 0 && p.w[2].strClose as int == 0 && p.w[0].strClose == p.w[2].strOpen)
  {
    hide Fingerprint, Detects, Blacklisted, Readable;
    VerdictIs(table, s, flags);
  }

  /** Two operands around a logic operator: harmless if that is the whole input. */
  lemma OperandsAround(table: seq<Keyword>, s: bytes, flags: Flags)
    requires var fp := Fingerprint(TheJob(table, s, flags)).fp;
      fp == "s&n" || fp == "n&1" || fp == "1&1" || fp == "1&v" || fp == "1&s"
    ensures var job := TheJob(table, s, flags);
      && |Stream(job)| >= 3
      && (Detects(table, s, flags) <==> Blacklisted(table, Fingerprint(job).fp) && |Stream(job)| > 3)
  {
    hide Fingerprint, Detects, Blacklisted, Readable, Stream;
    VerdictIs(table, s, flags);
    AllCounted(TheJob(table, s, flags));
  }

  /** Any other three tokens: with a keyword in the middle only if that starts with INTO and
      has more behind it. */
  lemma OtherTriples(table: seq<Keyword>, s: bytes, flags: Flags)
    requires var fp := Fingerprint(TheJob(table, s, flags)).fp;
      |fp| == 3 && !NamesPassword(s, fp)
      && fp !in ["sos", "s&s", "s&n", "n&1", "1&1", "1&v", "1&s"]
    ensures var p := Fingerprint(TheJob(table, s, flags));
      && |p.w| == WINDOW
      && (Detects(table, s, flags) <==>
            && Blacklisted(table, p.fp)
            && (p.fp[1] == 'k' ==> |p.w[1].val| >= 5 && Upper(p.w[1].val[..4]) == "INTO"))
  {
    hide Upper, Fingerprint, Detects, Blacklisted, Readable, NamesPassword;
    VerdictIs(table, s, flags);
    WindowTypes(TheJob(table, s, flags));
  }

  // ----- the contexts

  /** The contexts an input is tried in: one dialect; unquoted, or behind a quote that occurs in
      the input; behind a double quote in the MySQL dialect only. */
  predicate Applies(s: bytes, f: Flags) {
    && f.ansi != f.mysql
    && f.quoteNone == !(f.quoteSingle || f.quoteDouble) && !(f.quoteSingle && f.quoteDouble)
    && (f.quoteSingle ==> '\'' in s)
    && (f.quoteDouble ==> '"' in s && f.mysql)
  }

  /** The verdict on an input: some context that applies detects an attack. */
  lemma ContextsTried(table: seq<Keyword>, s: bytes)
    ensures IsSqli(table, s) <==> exists f: Flags :: Applies(s, f) && Detects(table, s, f)
  {
    hide Detects;
    if f: Flags :| Applies(s, f) && Detects(table, s, f) {
      assert f in {NONE_ANSI, NONE_MYSQL, SINGLE_ANSI, SINGLE_MYSQL, DOUBLE_MYSQL};
    }
    assert Applies(s, NONE_ANSI) && Applies(s, NONE_MYSQL);
    assert '\'' in s ==> Applies(s, SINGLE_ANSI) && Applies(s, SINGLE_MYSQL);
    assert '"' in s ==> Applies(s, DOUBLE_MYSQL);
  }
}
