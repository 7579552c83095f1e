/** The bounded substring search. */
module StrnStr {
  import opened Bytes

  /** s can be read up to slen bytes or up to a terminator, whichever comes first. */
  ghost predicate Readable(s: bytes, slen: nat) { slen <= |s| || NUL in s }

  /** What strnstr may look at: the first slen bytes of s, up to a terminator. */
  function Searched(s: bytes, slen: nat): (t: bytes)
    ensures t <= s && |t| <= slen && NUL !in t
    ensures |t| < slen && |t| < |s| ==> s[|t|] == NUL
  {
    CStr(if slen <= |s| then s[..slen] else s)
  }

  lemma SearchedEnds(s: bytes, limit: nat)
    requires Readable(s, limit)
    ensures var t := Searched(s, limit);
      |t| == limit || (|t| < |s| && s[|t|] == NUL)
  {
  }

  /** `strncmp(s + at, find, n) == 0` for n bytes of a string without NUL: no byte behind the
      first difference, and so none behind a terminator of s, is read. */
  method StrNCmpIsZero(s: bytes, at: nat, find: bytes, limit: nat) returns (equal: bool)
    requires NUL !in find && at + |find| <= limit && Readable(s, limit)
    requires at <= |Searched(s, limit)|
    ensures equal == OccursAt(find, Searched(s, limit), at)
  {
    hide Searched;
    ghost var t := Searched(s, limit);
    SearchedEnds(s, limit);
    var i := 0;
    while i < |find|
      invariant i <= |find| && at + i <= |t|
      invariant forall k :: 0 <= k < i ==> t[at + k] == find[k]
    {
      assert at + i == |t| ==> s[at + i] == NUL;
      if s[at + i] != find[i] {
        assert at + |find| <= |t| ==> t[at..at + |find|][i] == t[at + i];
        return false;
      }
      i := i + 1;
    }
    assert t[at..at + |find|] == find;
    equal := true;
  }

  lemma HeadAndRest(find: bytes, t: bytes, k: nat)
    requires find != [] && k < |t|
    ensures OccursAt(find, t, k) <==> t[k] == find[0] && OccursAt(find[1..], t, k + 1)
  {
    if k + |find| <= |t| {
      assert t[k..k + |find|] == [t[k]] + t[k + 1..k + |find|];
      assert find == [find[0]] + find[1..];
    }
  }

  lemma NoLaterMatch(find: bytes, t: bytes, p: nat)
    requires p + |find| > |t|
    ensures forall k: nat :: k >= p ==> !OccursAt(find, t, k)
  {
  }

  /** `strnstr`: the first place where find stands wholly inside the first slen bytes of s and
      before the terminator, or -1 for NULL. The early exit when too little is left to look at
      loses no match. */
  method StrNStr(s: bytes, find: bytes, slen: nat) returns (at: int)
    requires NUL !in find && Readable(s, slen)
    ensures var t := Searched(s, slen);
      if Occurs(find, t) then 0 <= at && OccursAt(find, t, at) && forall k: nat :: k < at ==> !OccursAt(find, t, k)
      else at == -1
  {
    ghost var t := Searched(s, slen);
    if find == [] {
      assert OccursAt(find, t, 0);
      return 0;
    }
    var c, rest := find[0], find[1..];
    var p, left := 0, slen;
    while true
      invariant p <= |t| && left == slen - p
      invariant forall k: nat :: k < p ==> !OccursAt(find, t, k)
      decreases |t| - p
    {
      SearchedEnds(s, slen);
      if left < 1 || s[p] == NUL {
        return -1;
      }
      var sc := s[p];
      p, left := p + 1, left - 1;
      HeadAndRest(find, t, p - 1);
      if sc == c {
        if |rest| > left {
          NoLaterMatch(find, t, p - 1);
          return -1;
        }
        var same := StrNCmpIsZero(s, p, rest, slen);
        if same {
          return p - 1;
        }
      }
    }
  }
}
