/** The stream of tokens against the bytes of the input: between tokens there are only blanks,
    and nothing else is passed over. */
module TokenLaws {
  import opened Bytes
  import opened Tokens
  import opened Scanners
  import opened ScannerFacts
  import opened Tokenizer

  /** The bytes that yield no token. */
  predicate YieldsNothing(c: byte) { c as int <= 32 || c as int == 127 || c as int == 160 }

  lemma OthersYield(s: bytes, p: nat, flags: Flags, lookup: Lookup)
    requires p < |s|
    ensures ScanAt(s, p, flags, lookup).tok.typ as int == 0 <==> YieldsNothing(s[p])
  {
    hide ScanAt;
    ScanSound(s, p, flags, lookup);
  }

  /** The next token from c on, outside the start of a quoted context: it is what the scanner
      reads at the first byte q that yields a token, and the cursor moves behind it; without
      such a byte the input is used up. */
  lemma {:induction false} NextReads(job: Job, c: Cursor, q: nat)
    requires c.src <= q <= |job.s| && (job.s == [] || c.src > 0 || !(job.flags.quoteSingle || job.flags.quoteDouble))
    requires forall k :: c.src <= k < q ==> YieldsNothing(job.s[k])
    requires q < |job.s| ==> !YieldsNothing(job.s[q])
    ensures NextToken(job, c) ==
      if q == |job.s| then Exhausted(Cursor(q, c.ddx, c.hash, c.tokens))
      else
        var sc := ScanAt(job.s, q, job.flags, job.lookup);
        Found(Cursor(q + sc.len, c.ddx + sc.ddx, c.hash + sc.hash, c.tokens + 1),
              sc.tok.(pos := q + sc.tok.pos))
    decreases q - c.src
  {
    hide ScanAt, YieldsNothing, StringCore, Spans;
    if c.src == q {
      if q < |job.s| {
        OthersYield(job.s, q, job.flags, job.lookup);
        ScanFollows(job, c);
      }
    } else {
      OthersYield(job.s, c.src, job.flags, job.lookup);
      ScanFollows(job, c);
      NextReads(job, c.(src := c.src + 1), q);
    }
  }
}
