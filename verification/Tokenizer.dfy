/** The tokenizer: from a position in the input to the next token. */
module Tokenizer {
  import opened Bytes
  import opened Tokens
  import opened Scanners
  import opened ScannerFacts

  /** What stays fixed during one pass over an input. */
  datatype Job = Job(s: bytes, flags: Flags, lookup: Lookup)

  /** How far a pass has come: next input byte, comment counters, tokens produced. */
  datatype Cursor = Cursor(src: nat, ddx: nat, hash: nat, tokens: nat) {
    function After(sc: Scan): Cursor {
      Cursor(src + sc.len, ddx + sc.ddx, hash + sc.hash, tokens)
    }
    function Counted(): Cursor { this.(tokens := tokens + 1) }
  }

  const START := Cursor(0, 0, 0, 0)

  datatype Next = Found(c: Cursor, tok: Token) | Exhausted(c: Cursor)

  /** t was read between cursors c and d: input was consumed, t lies in the consumed part,
      and its value is the input at its position. */
  ghost predicate Follows(job: Job, c: Cursor, d: Cursor, t: Token) {
    && c.src < d.src <= |job.s|
    && c.src <= t.pos
    && Spans(t, job.s, d.src)
    && t.typ != NUL
    && c.ddx <= d.ddx && c.hash <= d.hash && d.tokens == c.tokens + 1
  }

  /** One scanner call either skips one byte of white space or reads a token. */
  lemma ScanFollows(job: Job, c: Cursor)
    requires c.src < |job.s|
    ensures var sc := ScanAt(job.s, c.src, job.flags, job.lookup);
      if sc.tok.typ == NUL then sc == White()
      else Follows(job, c, c.After(sc).Counted(), sc.tok.Moved(c.src))
  {
    hide ScanAt;
    ScanSound(job.s, c.src, job.flags, job.lookup);
    var t := ScanAt(job.s, c.src, job.flags, job.lookup).tok;
    assert t.val == job.s[c.src..][t.pos..t.pos + |t.val|] == job.s[c.src + t.pos..c.src + t.pos + |t.val|];
  }

  /** The scanning loop: white space yields no token. */
  function Advance(job: Job, c: Cursor): (n: Next)
    requires c.src <= |job.s|
    ensures n.Found? ==> Follows(job, c, n.c, n.tok)
    ensures n.Exhausted? ==> n.c == c.(src := |job.s|)
    decreases |job.s| - c.src
  {
    hide ScanAt, Spans;
    if c.src == |job.s| then Exhausted(c)
    else
      ScanFollows(job, c);
      var sc := ScanAt(job.s, c.src, job.flags, job.lookup);
      if sc.tok.typ == NUL then Advance(job, c.After(sc)) else Found(c.After(sc).Counted(), sc.tok.Moved(c.src))
  }

  /** `libinjection_sqli_tokenize`. In a quoted context the input is taken to start inside
      a string. */
  function NextToken(job: Job, c: Cursor): (n: Next)
    requires c.src <= |job.s|
    ensures n.Found? ==> Follows(job, c, n.c, n.tok)
    ensures n.Exhausted? ==> n.c == c.(src := |job.s|)
  {
    if job.s != [] && c.src == 0 && job.flags.Quoted() then
      hide StringCore;
      StringCoreSound(job.s, job.flags.Delim(), 0);
      var sc := StringCore(job.s, job.flags.Delim(), 0);
      Found(c.After(sc).Counted(), sc.tok)
    else Advance(job, c)
  }

  /** All tokens from c to the end of the input. */
  function AllTokens(job: Job, c: Cursor): seq<Token>
    requires c.src <= |job.s|
    decreases |job.s| - c.src
  {
    match NextToken(job, c)
    case Exhausted(_) => []
    case Found(d, t) => [t] + AllTokens(job, d)
  }

  /** Tokens that lie in s at or after lo, in order and without overlap; each has a type, and
      its value is the input at its position, cut to the token buffer. */
  ghost predicate Tile(ts: seq<Token>, s: bytes, lo: nat) {
    && (forall i :: 0 <= i < |ts| ==> Spans(ts[i], s, |s|) && ts[i].typ != NUL && lo <= ts[i].pos)
    && (forall i, j :: 0 <= i < j < |ts| ==> ts[i].pos + |ts[i].val| <= ts[j].pos)
  }

  lemma SpansWithin(t: Token, s: bytes, end: nat)
    requires Spans(t, s, end)
    ensures Spans(t, s, |s|) && t.pos + |t.val| <= end
  {
  }

  /** The tokens of a pass tile the input from its cursor on. */
  lemma {:induction false} TokensTileTheInput(job: Job, c: Cursor)
    requires c.src <= |job.s|
    ensures Tile(AllTokens(job, c), job.s, c.src)
    decreases |job.s| - c.src
  {
    hide NextToken, Spans;
    match NextToken(job, c)
    case Exhausted(_) =>
    case Found(d, t) =>
      TokensTileTheInput(job, d);
      SpansWithin(t, job.s, d.src);
  }
}
