/** The bad-character matcher: at a mismatch it shifts the pattern so that the last equal
    byte comes under the text byte that did not match. */
module BadCharacter {
  import opened Bytes

  /** The last index of c in s, or -1. */
  function LastIndex(s: bytes, c: byte): (i: int)
    ensures -1 <= i < |s|
    ensures i >= 0 ==> s[i] == c
    ensures forall k :: i < k < |s| ==> s[k] != c
  {
    if s == [] then -1
    else if s[|s| - 1] == c then |s| - 1
    else LastIndex(s[..|s| - 1], c)
  }

  /** `max_horspool`. */
  function Max(a: int, b: int): int { if a > b then a else b }

  /** A shift by max(1, n - last) passes only alignments that put an unequal pattern byte
      under the mismatched text byte. */
  lemma ShiftIsSafe(pat: bytes, txt: bytes, shift: nat, n: nat, k: nat)
    requires n < |pat| && shift + n < |txt| && pat[n] != txt[shift + n]
    requires shift <= k < shift + Max(1, n - LastIndex(pat, txt[shift + n]))
    ensures !OccursAt(pat, txt, k)
  {
    hide LastIndex;
    var c := txt[shift + n];
    var m := n - (k - shift);
    assert 0 <= m && (m == n || LastIndex(pat, c) < m);
    assert pat[m] != c;
    if k + |pat| <= |txt| { assert txt[k..k + |pat|][m] == c; }
  }

  /** The bad-character table for a 7-bit pattern. */
  method BadCharTable(pat: bytes) returns (table: array<int>)
    requires SevenBit(pat)
    ensures fresh(table) && table.Length == 256
    ensures forall c: nat :: c < 256 ==> table[c] == LastIndex(pat, c as char)
  {
    table := new int[256];
    var i := 0;
    while i < 256
      invariant i <= 256
      invariant forall c: nat :: c < i ==> table[c] == -1
    {
      table[i] := -1;
      i := i + 1;
    }
    i := 0;
    while i < |pat|
      invariant i <= |pat|
      invariant forall c: nat :: c < 256 ==> table[c] == LastIndex(pat[..i], c as char)
    {
      assert pat[..i + 1][..i] == pat[..i];
      table[pat[i] as int] := i;
      i := i + 1;
    }
    assert pat[..|pat|] == pat;
  }

  /** `horspool_search`, for 7-bit text and pattern. */
  method BadCharSearch(txt: bytes, pat: bytes) returns (found: bool)
    requires SevenBit(pat) && SevenBit(txt)
    ensures found == Occurs(pat, txt)
  {
    var table := BadCharTable(pat);
    var shift := 0;
    while shift <= |txt| - |pat|
      invariant 0 <= shift
      invariant forall k: nat :: k < shift ==> !OccursAt(pat, txt, k)
      modifies {}
    {
      var n := |pat| - 1;
      while n >= 0 && pat[n] == txt[shift + n]
        invariant -1 <= n < |pat|
        invariant forall k :: n < k < |pat| ==> pat[k] == txt[shift + k]
      {
        n := n - 1;
      }
      if n < 0 {
        assert txt[shift..shift + |pat|] == pat;
        assert OccursAt(pat, txt, shift);
        return true;
      }
      var c := txt[shift + n] as int;
      assert c as char == txt[shift + n];
      var step := Max(1, n - table[c]);
      forall k: nat | shift <= k < shift + step ensures !OccursAt(pat, txt, k) {
        ShiftIsSafe(pat, txt, shift, n, k);
      }
      shift := shift + step;
    }
    found := false;
  }
}
