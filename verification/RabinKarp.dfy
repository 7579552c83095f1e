/** The rolling-hash matcher, in the 32-bit arithmetic it runs in. */
module RabinKarp {
  import opened Bytes

  const WORD: int := 0x1_0000_0000

  /** The value of x in a 32-bit two's complement `int`. */
  function Int32(x: int): (y: int)
    ensures -0x8000_0000 <= y < 0x8000_0000
  {
    (x + 0x8000_0000) % WORD - 0x8000_0000
  }

  lemma {:induction false} ModAddMultiple(y: int, k: int)
    ensures (y + WORD * k) % WORD == y % WORD
    decreases if k < 0 then -k else k
  {
    if k == 0 {
    } else if k > 0 {
      ModAddMultiple(y, k - 1);
    } else {
      ModAddMultiple(y, k + 1);
    }
  }

  /** Values a multiple of 2^32 apart are the same `int`. */
  lemma Int32Wraps(x: int, k: int)
    ensures Int32(x + WORD * k) == Int32(x)
    ensures exists q :: Int32(x) == x - WORD * q
  {
    assert Int32(x) == x - WORD * ((x + 0x8000_0000) / WORD);
    var y := x + 0x8000_0000;
    assert (y + WORD * k) % WORD == y % WORD by { ModAddMultiple(y, k); }
  }

  /** Wrapping before an addition, a doubling or a product changes nothing once the result is
      wrapped. */
  lemma Int32Add(x: int, y: int)
    ensures Int32(Int32(x) + y) == Int32(x + y)
  {
    Int32Wraps(x, 0);
    var q :| Int32(x) == x - WORD * q;
    Int32Wraps(x + y, -q);
  }

  lemma Int32Times(c: int, x: int)
    ensures Int32(c * Int32(x)) == Int32(c * x)
  {
    Int32Wraps(x, 0);
    var q :| Int32(x) == x - WORD * q;
    assert c * Int32(x) == c * x + WORD * (-(c * q)) by {
      assert c * (x - WORD * q) == c * x - c * (WORD * q);
      assert c * (WORD * q) == WORD * (c * q);
    }
    Int32Wraps(c * x, -(c * q));
  }

  /** The base-2 hash of a byte string, without wrapping. */
  function Hash(s: bytes): int {
    if s == [] then 0 else 2 * Hash(s[..|s| - 1]) + Signed(s[|s| - 1])
  }

  lemma Doubled(a: int, n: nat)
    ensures 2 * (a * Pow2(n)) == a * Pow2(n + 1)
  {
    var p := Pow2(n);
    assert a * (2 * p) == 2 * (a * p);
  }

  lemma Starts()
    ensures Pow2(0) == 1 && Hash([]) == 0
  {
  }

  /** The hash in terms of the first byte. */
  lemma {:induction false} HashFirst(s: bytes)
    requires s != []
    ensures Hash(s) == Signed(s[0]) * Pow2(|s| - 1) + Hash(s[1..])
  {
    hide Signed, Pow2;
    if |s| > 1 {
      var front := s[..|s| - 1];
      HashFirst(front);
      assert front[1..] == s[1..][..|s| - 2];
      Doubled(Signed(s[0]), |s| - 2);
    } else {
      assert s[..0] == [] && s[1..] == [];
      assert Hash(s) == 2 * Hash(s[..0]) + Signed(s[0]);
      assert Pow2(0) == 1 by { Starts(); }
    }
  }

  /** Rolling the window one byte on. */
  lemma HashRolls(w: bytes, c: byte)
    requires w != []
    ensures Hash(w[1..] + [c]) == (Hash(w) - Signed(w[0]) * Pow2(|w| - 1)) * 2 + Signed(c)
  {
    HashFirst(w);
    var v := w[1..] + [c];
    assert v[..|v| - 1] == w[1..];
  }

  /** One update of the rolling value as the program computes it. */
  function Roll(value: int, first: byte, z: int, next: byte): int {
    Int32(Int32(2 * Int32(value - Int32(Signed(first) * z))) + Signed(next))
  }

  lemma Int32Sub(x: int, y: int)
    ensures Int32(Int32(x) - Int32(y)) == Int32(x - y)
  {
    Int32Add(x, -Int32(y));
    Int32Times(-1, y);
    Int32Wraps(y, 0);
    var q :| Int32(y) == y - WORD * q;
    Int32Wraps(x - y, q);
  }

  /** The rolling value of a window rolls to the value of the next window, overflow or not. */
  lemma RollIsHash(w: bytes, c: byte)
    requires w != []
    ensures Roll(Int32(Hash(w)), w[0], Int32(Pow2(|w| - 1)), c) == Int32(Hash(w[1..] + [c]))
  {
    hide Int32, Hash, Pow2, Signed;
    var a, p := Signed(w[0]), Pow2(|w| - 1);
    Int32Times(a, p);
    Int32Sub(Hash(w), a * p);
    Int32Times(2, Hash(w) - a * p);
    Int32Add(2 * (Hash(w) - a * p), Signed(c));
    HashRolls(w, c);
  }

  lemma WindowRolls(s: bytes, j: nat, m: nat)
    requires 0 < m && j + m < |s|
    ensures s[j..j + m][1..] + [s[j + m]] == s[j + 1..j + 1 + m]
  {
  }

  lemma WindowOccurs(pat: bytes, input: bytes, len: nat, j: nat)
    requires j + |pat| <= len <= |input|
    ensures OccursAt(pat, input[..len], j) <==> pat == input[j..j + |pat|]
  {
    assert input[..len][j..j + |pat|] == input[j..j + |pat|];
  }

  lemma Int32Small()
    ensures Int32(0) == 0 && Int32(1) == 1
  {
  }

  lemma HashStep(s: bytes, i: nat)
    requires i < |s|
    ensures Int32(Hash(s[..i + 1])) == Int32(Int32(2 * Int32(Hash(s[..i]))) + Signed(s[i]))
  {
    hide Int32;
    assert s[..i + 1][..i] == s[..i];
    Int32Times(2, Hash(s[..i]));
    Int32Add(2 * Hash(s[..i]), Signed(s[i]));
  }

  lemma FoundMeans(pat: bytes, t: bytes, j: nat)
    requires OccursAt(pat, t, j)
    ensures Occurs(pat, t)
  {
  }

  lemma NotFoundMeans(pat: bytes, t: bytes, j: nat)
    requires j + |pat| > |t|
    requires forall k: nat :: k < j ==> !OccursAt(pat, t, k)
    ensures !Occurs(pat, t)
  {
  }

  lemma {:induction false} Pow2Grows(m: nat, n: nat)
    requires m <= n
    ensures Pow2(m) <= Pow2(n)
  {
    if m == n {
    } else {
      Pow2Grows(m, n - 1);
    }
  }

  lemma Pow2Double(n: nat)
    ensures Pow2(n + 1) == 2 * Pow2(n) && Pow2(n) >= 1
  {
    Pow2Grows(0, n);
  }

  /** `Rabin_Karp_search` on the first len bytes of a buffer readable through index len. */
  method RollingSearch(input: bytes, len: nat, pat: bytes) returns (found: bool)
    requires len < |input| && |pat| <= |input|
    ensures found == Occurs(pat, input[..len])
  {
    hide Int32, Occurs, Hash, Pow2, Roll, OccursAt;
    var var1, var2, z := 0, 0, 1;
    var i := 1;
    Int32Small();
    assert Pow2(0) == 1 && Hash([]) == 0 by { Starts(); }
    while i < |pat|
      invariant 1 <= i && (i <= |pat| || i == 1)
      invariant z == Int32(Pow2(i - 1))
    {
      Int32Times(2, Pow2(i - 1));
      Pow2Double(i - 1);
      z := Int32(2 * z);
      i := i + 1;
    }
    i := 0;
    while i < |pat|
      invariant 0 <= i <= |pat|
      invariant var1 == Int32(Hash(pat[..i])) && var2 == Int32(Hash(input[..i]))
    {
      HashStep(pat, i);
      HashStep(input, i);
      var1 := Int32(Int32(2 * var1) + Signed(pat[i]));
      var2 := Int32(Int32(2 * var2) + Signed(input[i]));
      i := i + 1;
    }
    assert pat[..|pat|] == pat;
    var j, sub := 0, len - |pat|;
    while j <= sub
      invariant 0 <= j && (j <= sub + 1 || j == 0)
      invariant j + |pat| <= |input|
      invariant j <= sub ==> var2 == Int32(Hash(input[j..j + |pat|]))
      invariant forall k: nat :: k < j ==> !OccursAt(pat, input[..len], k)
    {
      WindowOccurs(pat, input, len, j);
      if var1 == var2 && pat == input[j..j + |pat|] {
        FoundMeans(pat, input[..len], j);
        return true;
      }
      assert pat != [];
      var w := input[j..j + |pat|];
      RollIsHash(w, input[j + |pat|]);
      WindowRolls(input, j, |pat|);
      var2 := Roll(var2, input[j], z, input[j + |pat|]);
      j := j + 1;
    }
    NotFoundMeans(pat, input[..len], j);
    found := false;
  }

  lemma {:induction false} Pow2Sum(m: nat, n: nat)
    ensures Pow2(m + n) == Pow2(m) * Pow2(n)
  {
    if n == 0 {
    } else {
      Pow2Sum(m, n - 1);
    }
  }

  lemma Pow2Is24()
    ensures Pow2(24) == 0x100_0000
  {
    assert Pow2(8) == 256;
    Pow2Sum(8, 8);
    Pow2Sum(16, 8);
  }

  lemma Scaled(a: int, p: nat)
    requires 0 <= a <= 127
    ensures 0 <= a * p <= 127 * p
  {
  }

  lemma {:induction false} HashBound(w: bytes)
    requires SevenBit(w)
    ensures 0 <= Hash(w) <= 127 * (Pow2(|w|) - 1)
  {
    if w == [] {
    } else {
      HashBound(w[..|w| - 1]);
    }
  }

  /** For 7-bit text and patterns of up to 24 bytes no intermediate value overflows, so the
      wrapping never happens: this is where the signed arithmetic is defined in C at all. */
  lemma NoOverflow(w: bytes, c: byte)
    requires SevenBit(w) && c as int < 128 && 1 <= |w| <= 24
    ensures var p := Pow2(|w| - 1);
      var a := Signed(w[0]) * p;
      && 0 <= Hash(w) < 0x8000_0000 && 0 <= p < 0x8000_0000 && 0 <= a < 0x8000_0000
      && 0 <= Hash(w) - a && (Hash(w) - a) * 2 + Signed(c) < 0x8000_0000
  {
    hide Hash, Pow2;
    var p := Pow2(|w| - 1);
    HashBound(w);
    HashFirst(w);
    HashBound(w[1..]);
    Pow2Double(|w| - 1);
    Pow2Grows(|w|, 24);
    Pow2Is24();
    Scaled(Signed(w[0]), p);
  }
}
