/** The prefix-automaton matcher: the state after each byte is the longest pattern prefix that
    ends there. */
module PrefixAutomaton {
  import opened Bytes

  /** The first k bytes of pat end t. */
  predicate Ends(pat: bytes, k: nat, t: bytes) {
    k <= |pat| && k <= |t| && pat[..k] == t[|t| - k..]
  }

  /** j is the length of the longest prefix of pat that ends t. */
  ghost predicate IsLongest(pat: bytes, t: bytes, j: nat) {
    Ends(pat, j, t) && forall k: nat :: Ends(pat, k, t) ==> k <= j
  }

  /** What follows `state` when x is read, as the automaton's definition has it. */
  ghost predicate IsNext(pat: bytes, state: nat, x: byte, next: nat)
    requires state <= |pat|
  {
    IsLongest(pat, pat[..state] + [x], next)
  }

  /** A prefix ends t + [x] when it continues a prefix that ends t. */
  lemma EndsSnoc(pat: bytes, k: nat, t: bytes, x: byte)
    requires 1 <= k
    ensures Ends(pat, k, t + [x]) <==> k <= |pat| && Ends(pat, k - 1, t) && pat[k - 1] == x
  {
    var u := t + [x];
    if k <= |pat| && k <= |u| {
      assert u[|u| - k..] == t[|t| - (k - 1)..] + [x];
      assert pat[..k] == pat[..k - 1] + [pat[k - 1]];
      if pat[..k] == u[|u| - k..] {
        assert pat[..k][k - 1] == u[|u| - k..][k - 1];
        assert pat[..k][..k - 1] == u[|u| - k..][..k - 1];
      }
    }
  }

  /** Of two prefixes that end t, the shorter ends the longer. */
  lemma EndsNested(pat: bytes, k: nat, j: nat, t: bytes)
    requires Ends(pat, j, t) && k <= j
    ensures Ends(pat, k, t) <==> Ends(pat, k, pat[..j])
  {
    assert t[|t| - k..] == t[|t| - j..][j - k..];
  }

  /** The automaton's step from the longest prefix ending t gives the longest prefix ending
      t + [x]: nothing about t but its state matters. */
  lemma NextIsLongest(pat: bytes, t: bytes, j: nat, x: byte, next: nat)
    requires IsLongest(pat, t, j) && IsNext(pat, j, x, next)
    ensures IsLongest(pat, t + [x], next)
  {
    forall k: nat ensures Ends(pat, k, t + [x]) <==> Ends(pat, k, pat[..j] + [x]) {
      if k >= 1 {
        EndsSnoc(pat, k, t, x);
        EndsSnoc(pat, k, pat[..j], x);
        if k - 1 <= j { EndsNested(pat, k - 1, j, t); }
      }
    }
  }

  lemma OccursSnoc(pat: bytes, t: bytes, x: byte)
    requires pat != []
    ensures Occurs(pat, t + [x]) <==> Occurs(pat, t) || Ends(pat, |pat|, t + [x])
  {
    var u := t + [x];
    forall k: nat | k + |pat| <= |t| ensures OccursAt(pat, u, k) <==> OccursAt(pat, t, k) {
      assert u[k..k + |pat|] == t[k..k + |pat|];
    }
    if |pat| <= |u| {
      assert u[|u| - |pat|..] == u[|u| - |pat|..|u| - |pat| + |pat|];
      assert pat[..|pat|] == pat;
      if Ends(pat, |pat|, u) { assert OccursAt(pat, u, |u| - |pat|); }
    }
    if Occurs(pat, t) {
      var k: nat :| k <= |t| && OccursAt(pat, t, k);
      assert OccursAt(pat, u, k);
    }
    if Occurs(pat, u) {
      var k: nat :| k <= |u| && OccursAt(pat, u, k);
      if k + |pat| <= |t| { assert OccursAt(pat, t, k); } else { assert k == |u| - |pat|; }
    }
  }

  /** Only a pattern byte equal to x can carry a prefix over the end of pat[..state]. */
  lemma NextIsShort(pat: bytes, state: nat, x: byte, k: nat)
    requires state <= |pat| && Ends(pat, k, pat[..state] + [x])
    ensures k <= state + 1 && (k == state + 1 ==> state < |pat| && x == pat[state])
  {
    if k >= 1 { EndsSnoc(pat, k, pat[..state], x); }
  }

  /** The comparison loop of NextMachineState decides whether the first fix bytes end here. */
  lemma FixEnds(pat: bytes, state: nat, x: byte, fix: nat)
    requires 1 <= fix <= state <= |pat|
    ensures Ends(pat, fix, pat[..state] + [x]) <==>
      pat[fix - 1] == x && forall m :: 0 <= m < fix - 1 ==> pat[m] == pat[state - fix + 1 + m]
  {
    var t := pat[..state];
    EndsSnoc(pat, fix, t, x);
    var u := t[|t| - (fix - 1)..];
    assert forall m :: 0 <= m < fix - 1 ==> u[m] == pat[state - fix + 1 + m] && pat[..fix - 1][m] == pat[m];
  }

  /** `NextMachineState`. */
  method NextMachineState(pat: bytes, state: nat, x: byte) returns (next: nat)
    requires state <= |pat|
    ensures next <= |pat| && IsNext(pat, state, x, next)
  {
    ghost var t := pat[..state];
    forall k: nat | Ends(pat, k, t + [x])
      ensures k <= state + 1 && (k == state + 1 ==> state < |pat| && x == pat[state])
    {
      NextIsShort(pat, state, x, k);
    }
    if state < |pat| && x == pat[state] {
      assert pat[..state + 1] == t + [x];
      return state + 1;
    }
    assert Ends(pat, 0, t + [x]);
    var fix := state;
    while fix > 0
      invariant fix <= state
      invariant forall k: nat :: Ends(pat, k, t + [x]) ==> k <= fix
    {
      FixEnds(pat, state, x, fix);
      if pat[fix - 1] == x {
        var i := 0;
        while i < fix - 1 && pat[i] == pat[state - fix + 1 + i]
          invariant 0 <= i <= fix - 1
          invariant forall m :: 0 <= m < i ==> pat[m] == pat[state - fix + 1 + m]
        {
          i := i + 1;
        }
        if i == fix - 1 {
          return fix;
        }
      }
      fix := fix - 1;
    }
    next := 0;
  }

  /** `write_tf`: the transition table. */
  method WriteTable(pat: bytes) returns (tf: array2<nat>)
    ensures fresh(tf) && tf.Length0 == |pat| + 1 && tf.Length1 == 256
    ensures forall j: nat, c: nat :: j <= |pat| && c < 256 ==> IsNext(pat, j, c as char, tf[j, c])
  {
    tf := new nat[|pat| + 1, 256];
    var state := 0;
    while state <= |pat|
      invariant state <= |pat| + 1
      invariant forall j: nat, c: nat :: j < state && c < 256 ==> IsNext(pat, j, c as char, tf[j, c])
    {
      var x := 0;
      while x < 256
        invariant x <= 256
        invariant forall j: nat, c: nat :: j < state && c < 256 ==> IsNext(pat, j, c as char, tf[j, c])
        invariant forall c: nat :: c < x ==> IsNext(pat, state, c as char, tf[state, c])
      {
        var next := NextMachineState(pat, state, x as char);
        tf[state, x] := next;
        x := x + 1;
      }
      state := state + 1;
    }
  }

  lemma EmptyText(pat: bytes)
    ensures IsLongest(pat, [], 0)
    ensures pat != [] ==> !Occurs(pat, [])
  {
  }

  lemma LongestFits(pat: bytes, t: bytes, j: nat)
    requires IsLongest(pat, t, j)
    ensures j <= |pat| && (j == |pat| <==> Ends(pat, |pat|, t))
  {
  }

  lemma EndsMeansOccurs(pat: bytes, txt: bytes, n: nat)
    requires n <= |txt| && Ends(pat, |pat|, txt[..n])
    ensures Occurs(pat, txt)
  {
    assert txt[n - |pat|..n - |pat| + |pat|] == txt[..n][n - |pat|..] == pat[..|pat|] == pat;
    assert OccursAt(pat, txt, n - |pat|);
  }

  /** `DFA_Search`, for 7-bit text and pattern. An empty pattern is found in any text but the
      empty one. */
  method DfaSearch(pat: bytes, txt: bytes) returns (found: bool)
    requires SevenBit(pat) && SevenBit(txt)
    ensures found == (Occurs(pat, txt) && txt != [])
  {
    hide Ends, IsLongest, Occurs;
    var tf := WriteTable(pat);
    var i: nat, state: nat := 0, 0;
    EmptyText(pat);
    assert txt[..0] == [];
    while i < |txt|
      invariant i <= |txt| && state <= |pat|
      invariant IsLongest(pat, txt[..i], state)
      invariant state < |pat| || i == 0
      invariant pat != [] ==> !Occurs(pat, txt[..i])
      modifies {}
    {
      var c := txt[i] as int;
      var next := tf[state, c];
      assert c as char == txt[i];
      NextIsLongest(pat, txt[..i], state, txt[i], next);
      assert txt[..i] + [txt[i]] == txt[..i + 1];
      if pat != [] {
        OccursSnoc(pat, txt[..i], txt[i]);
      }
      state := next;
      LongestFits(pat, txt[..i + 1], state);
      if state == |pat| {
        EndsMeansOccurs(pat, txt, i + 1);
        return true;
      }
      i := i + 1;
    }
    assert txt[..|txt|] == txt;
    found := false;
  }
}
