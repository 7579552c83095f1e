/** The closing quote of a string. The program jumps from quote to quote and looks back over
    the backslashes before each one; the result is the one a single left-to-right reading
    (Scanners.ClosingQuote) finds. */
module QuoteSearch {
  import opened Bytes
  import opened Scanners

  /** Number of backslashes immediately before q, not looking further back than lo. */
  function RunBefore(s: bytes, lo: nat, q: nat): (n: nat)
    requires lo <= q <= |s|
    ensures n <= q - lo
    ensures forall k :: q - n <= k < q ==> s[k] == '\\'
    ensures n < q - lo ==> s[q - n - 1] != '\\'
  {
    if q > lo && s[q - 1] == '\\' then 1 + RunBefore(s, lo, q - 1) else 0
  }

  /** `is_backslash_escaped`: the backslash run that ends before q has odd length. */
  method IsBackslashEscaped(s: bytes, lo: nat, q: nat) returns (escaped: bool)
    requires lo <= q <= |s|
    ensures escaped == (RunBefore(s, lo, q) % 2 == 1)
  {
    var ptr := q;
    while ptr > lo && s[ptr - 1] == '\\'
      invariant lo <= ptr <= q
      invariant RunBefore(s, lo, q) == q - ptr + RunBefore(s, lo, ptr)
    {
      ptr := ptr - 1;
    }
    escaped := (q - ptr) % 2 == 1;
  }

  /** Moving the look-back bound changes nothing unless the run reaches it. */
  lemma {:induction false} RunBound(s: bytes, lo: nat, mid: nat, q: nat)
    requires lo <= mid <= q <= |s|
    ensures RunBefore(s, lo, q) ==
            if RunBefore(s, mid, q) < q - mid then RunBefore(s, mid, q)
            else q - mid + RunBefore(s, lo, mid)
    decreases q
  {
    if q == mid || s[q - 1] != '\\' {
    } else {
      RunBound(s, lo, mid, q - 1);
    }
  }

  /** The left-to-right reader on indices of s. */
  function CloseFrom(s: bytes, i: nat, delim: byte): (q: nat)
    requires i <= |s|
    ensures i <= q <= |s|
    decreases |s| - i
  {
    if i == |s| then i
    else if s[i] == '\\' then if i + 1 == |s| then |s| else CloseFrom(s, i + 2, delim)
    else if s[i] != delim then CloseFrom(s, i + 1, delim)
    else if i + 1 < |s| && s[i + 1] == delim then CloseFrom(s, i + 2, delim)
    else i
  }

  lemma {:induction false} CloseFromIsClosingQuote(s: bytes, i: nat, delim: byte)
    requires i <= |s|
    ensures CloseFrom(s, i, delim) == i + ClosingQuote(s[i..], delim)
    decreases |s| - i
  {
    if i == |s| {
    } else {
      assert s[i..][1..] == s[i + 1..];
      CloseFromIsClosingQuote(s, i + 1, delim);
      if i + 1 < |s| {
        assert s[i..][2..] == s[i + 2..];
        CloseFromIsClosingQuote(s, i + 2, delim);
      }
    }
  }

  /** A byte that is no backslash, or a pair that starts with one, leaves the parity alone. */
  lemma RunParity(s: bytes, from: nat, q: nat)
    requires from < q <= |s|
    ensures s[from] != '\\' ==> RunBefore(s, from, q) == RunBefore(s, from + 1, q)
    ensures s[from] == '\\' && from + 1 == q ==> RunBefore(s, from, q) == 1
    ensures s[from] == '\\' && from + 1 < q ==> RunBefore(s, from, q) % 2 == RunBefore(s, from + 2, q) % 2
  {
    RunBound(s, from, from + 1, q);
    if from + 1 < q { RunBound(s, from, from + 2, q); }
  }

  /** Reading a stretch without quotes: the reader arrives at q outside an escape exactly
      when the backslash run before q is even. */
  lemma {:induction false} ReadStretch(s: bytes, from: nat, q: nat, delim: byte)
    requires from <= q <= |s| && delim != '\\'
    requires forall k :: from <= k < q ==> s[k] != delim
    ensures CloseFrom(s, from, delim) ==
            if RunBefore(s, from, q) % 2 == 0 then CloseFrom(s, q, delim)
            else if q == |s| then |s| else CloseFrom(s, q + 1, delim)
    decreases q - from
  {
    if from == q { assert RunBefore(s, from, q) == 0; }
    hide RunBefore;
    if from < q {
      RunParity(s, from, q);
      if s[from] != '\\' {
        ReadStretch(s, from + 1, q, delim);
      } else if from + 1 < q {
        ReadStretch(s, from + 2, q, delim);
      }
    }
  }

  /** The reader at a quote it reaches outside an escape. */
  lemma AtQuote(s: bytes, q: nat, delim: byte)
    requires q < |s| && s[q] == delim != '\\'
    ensures CloseFrom(s, q, delim) == if q + 1 < |s| && s[q + 1] == delim then CloseFrom(s, q + 2, delim) else q
  {
  }

  /** The first quote at or after a place where the reader is outside an escape. */
  lemma QuoteDecides(s: bytes, start: nat, from: nat, q: nat, delim: byte)
    requires start <= from <= q < |s| && s[q] == delim != '\\'
    requires from > start ==> s[from - 1] == delim
    requires forall k :: from <= k < q ==> s[k] != delim
    ensures CloseFrom(s, from, delim) ==
            if RunBefore(s, start, q) % 2 == 1 then CloseFrom(s, q + 1, delim)
            else if q + 1 < |s| && s[q + 1] == delim then CloseFrom(s, q + 2, delim)
            else q
  {
    hide CloseFrom;
    ReadStretch(s, from, q, delim);
    AtQuote(s, q, delim);
    RunBound(s, start, from, q);
  }

  lemma AtEnd(s: bytes, delim: byte)
    ensures CloseFrom(s, |s|, delim) == |s|
  {
  }

  /** `parse_string_core` without the token: the index of the closing quote of the string
      whose body starts at `start`, or |s|. */
  method FindClosingQuote(s: bytes, start: nat, delim: byte) returns (q: nat)
    requires start <= |s| && delim != '\\'
    ensures q == start + ClosingQuote(s[start..], delim)
  {
    hide ClosingQuote, CloseFrom, IndexOf, RunBefore;
    ghost var from := start;
    CloseFromIsClosingQuote(s, start, delim);
    q := MemChr(s, start, delim);
    while q < |s|
      invariant start <= from <= q <= |s|
      invariant from > start ==> s[from - 1] == delim
      invariant forall k :: from <= k < q ==> s[k] != delim
      invariant q < |s| ==> s[q] == delim
      invariant CloseFrom(s, start, delim) == CloseFrom(s, from, delim)
      decreases |s| - q
    {
      QuoteDecides(s, start, from, q, delim);
      var escaped := IsBackslashEscaped(s, start, q);
      if escaped {
        from := q + 1;
        q := MemChr(s, q + 1, delim);
      } else if q + 1 < |s| && s[q + 1] == s[q] {
        from := q + 2;
        q := MemChr(s, q + 2, delim);
      } else {
        return;
      }
    }
    ReadStretch(s, from, q, delim);
    assert CloseFrom(s, |s|, delim) == |s| by { AtEnd(s, delim); }
  }
}
