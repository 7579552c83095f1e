/** Bytes, byte strings, and the small search routines the scanners are built from.
    Every routine has a declarative form on a string and, where the program runs a loop,
    a method that runs the same loop on absolute indices. */
module Bytes {

  /** A C `char` seen as a code from 0 to 255. */
  type byte = c: char | c as int < 256 witness 'a'

  type bytes = seq<byte>

  const NUL: byte := '\0'

  /** The value of a byte as a signed 8-bit `char`. */
  function Signed(c: byte): int {
    if c as int < 128 then c as int else c as int - 256
  }

  predicate SevenBit(s: bytes) { forall i :: 0 <= i < |s| ==> s[i] as int < 128 }

  function Pow2(n: nat): nat { if n == 0 then 1 else 2 * Pow2(n - 1) }

  predicate IsLower(c: byte) { 'a' <= c <= 'z' }

  predicate IsDigit(c: byte) { '0' <= c <= '9' }

  /** ASCII upper-casing of one byte. */
  function UpperByte(c: byte): byte {
    if IsLower(c) then c - ' ' else c
  }

  function Upper(s: bytes): (u: bytes)
    ensures |u| == |s|
    ensures forall i {:trigger u[i]} :: 0 <= i < |s| ==> u[i] == UpperByte(s[i])
  {
    seq(|s|, i requires 0 <= i < |s| => UpperByte(s[i]))
  }

  /** `memchr`: the first index of c in s, or |s| when c does not occur. */
  function IndexOf(s: bytes, c: byte): (i: nat)
    ensures i <= |s|
    ensures i < |s| ==> s[i] == c
    ensures forall k :: 0 <= k < i ==> s[k] != c
  {
    if s == [] || s[0] == c then 0 else 1 + IndexOf(s[1..], c)
  }

  /** The part of s a C string function sees: everything before the first NUL. */
  function CStr(s: bytes): bytes { s[..IndexOf(s, NUL)] }

  /** `strchr(accept, c) != NULL`: the terminator of `accept` matches as well. */
  predicate Accepts(accept: string, c: byte) { c == NUL || c in accept }

  predicate IsWhite(c: byte) { Accepts(" \t\n\U{0B}\U{0C}\r\U{A0}", c) }

  predicate PairAt(s: bytes, k: nat, c0: byte, c1: byte) {
    k + 1 < |s| && s[k] == c0 && s[k + 1] == c1
  }

  /** The first index at which c0 c1 occurs in s, or |s| when it does not occur. */
  function IndexOf2(s: bytes, c0: byte, c1: byte): (i: nat)
    ensures i <= |s|
    ensures i < |s| ==> PairAt(s, i, c0, c1)
    ensures forall k: nat :: k < i ==> !PairAt(s, k, c0, c1)
  {
    if |s| < 2 then |s|
    else if s[0] == c0 && s[1] == c1 then 0
    else
      assert forall k: nat :: 0 < k ==> PairAt(s, k, c0, c1) == PairAt(s[1..], k - 1, c0, c1);
      1 + IndexOf2(s[1..], c0, c1)
  }

  /** needle stands in s at index k. */
  predicate OccursAt(needle: bytes, s: bytes, k: nat) {
    k + |needle| <= |s| && s[k..k + |needle|] == needle
  }

  predicate Occurs(needle: bytes, s: bytes) {
    exists k: nat :: k <= |s| && OccursAt(needle, s, k)
  }

  lemma OccursInPrefix(needle: bytes, s: bytes, m: nat, k: nat)
    requires m <= |s|
    ensures OccursAt(needle, s[..m], k) <==> OccursAt(needle, s, k) && k + |needle| <= m
  {
    if k + |needle| <= m { assert s[..m][k..k + |needle|] == s[k..k + |needle|]; }
  }

  /** The first index not below `from` at which needle occurs in s, or |s| + 1. */
  function FirstAt(needle: bytes, s: bytes, from: nat): (i: nat)
    ensures i <= |s| ==> from <= i && OccursAt(needle, s, i)
    ensures i <= |s| + 1
    ensures forall k: nat :: from <= k < i ==> !OccursAt(needle, s, k)
    decreases |s| - from
  {
    if from > |s| then |s| + 1
    else if OccursAt(needle, s, from) then from
    else FirstAt(needle, s, from + 1)
  }

  /** Length of the longest prefix of s whose bytes are all accepted. */
  function Span(s: bytes, accept: string): (n: nat)
    ensures n <= |s|
    ensures n < |s| ==> !Accepts(accept, s[n])
    ensures forall k :: 0 <= k < n ==> Accepts(accept, s[k])
  {
    if s == [] || !Accepts(accept, s[0]) then 0 else 1 + Span(s[1..], accept)
  }

  /** Length of the longest prefix of s none of whose bytes is accepted. */
  function SpanNot(s: bytes, stops: string): (n: nat)
    ensures n <= |s|
    ensures n < |s| ==> Accepts(stops, s[n])
    ensures forall k :: 0 <= k < n ==> !Accepts(stops, s[k])
  {
    if s == [] || Accepts(stops, s[0]) then 0 else 1 + SpanNot(s[1..], stops)
  }

  /** Length of the longest prefix of decimal digits. */
  function Digits(s: bytes): (n: nat)
    ensures n <= |s|
    ensures n < |s| ==> !IsDigit(s[n])
    ensures forall k :: 0 <= k < n ==> IsDigit(s[k])
  {
    if s == [] || !IsDigit(s[0]) then 0 else 1 + Digits(s[1..])
  }

  /** `memchr2`: the loop over adjacent pairs of s[from..to]. */
  method MemChr2(s: bytes, from: nat, to: nat, c0: byte, c1: byte) returns (at: nat)
    requires from <= to <= |s|
    ensures at == from + IndexOf2(s[from..to], c0, c1)
  {
    at := from;
    while at + 1 < to
      invariant from <= at <= to
      invariant from + IndexOf2(s[from..to], c0, c1) == at + IndexOf2(s[at..to], c0, c1)
    {
      if s[at] == c0 && s[at + 1] == c1 {
        return;
      }
      assert s[at..to][1..] == s[at + 1..to];
      at := at + 1;
    }
    at := to;
  }

  /** `memchr` as called by the scanners: the first c at or after from, or |s|. */
  method MemChr(s: bytes, from: nat, c: byte) returns (at: nat)
    requires from <= |s|
    ensures at == from + IndexOf(s[from..], c)
    ensures from <= at <= |s| && (at < |s| ==> s[at] == c)
    ensures forall k :: from <= k < at ==> s[k] != c
  {
    at := from;
    while at < |s| && s[at] != c
      invariant from <= at <= |s|
      invariant forall k :: from <= k < at ==> s[k] != c
      invariant from + IndexOf(s[from..], c) == at + IndexOf(s[at..], c)
    {
      at := at + 1;
    }
  }

  /** `strlenspn`. */
  method StrLenSpn(s: bytes, from: nat, accept: string) returns (n: nat)
    requires from <= |s|
    ensures n == Span(s[from..], accept)
  {
    n := 0;
    while from + n < |s|
      invariant from + n <= |s|
      invariant Span(s[from..], accept) == n + Span(s[from + n..], accept)
    {
      if !Accepts(accept, s[from + n]) {
        return;
      }
      n := n + 1;
    }
  }

  /** `strlencspn`. */
  method StrLenCSpn(s: bytes, from: nat, stops: string) returns (n: nat)
    requires from <= |s|
    ensures n == SpanNot(s[from..], stops)
  {
    n := 0;
    while from + n < |s|
      invariant from + n <= |s|
      invariant SpanNot(s[from..], stops) == n + SpanNot(s[from + n..], stops)
    {
      if Accepts(stops, s[from + n]) {
        return;
      }
      n := n + 1;
    }
  }

  lemma {:induction false} NoRoom(needle: bytes, s: bytes, from: nat)
    requires from + |needle| > |s|
    ensures FirstAt(needle, s, from) == |s| + 1
    decreases |s| - from
  {
    if from > |s| {
    } else {
      NoRoom(needle, s, from + 1);
    }
  }

  /** `my_memmem` on s[lo..]: tries every position that leaves room for the needle. */
  method MemMem(needle: bytes, s: bytes, lo: nat) returns (at: nat)
    requires needle != []
    ensures at == FirstAt(needle, s, lo)
  {
    at := lo;
    while at + |needle| <= |s|
      invariant lo <= at
      invariant at <= |s| || at == lo
      invariant FirstAt(needle, s, lo) == FirstAt(needle, s, at)
    {
      if s[at] == needle[0] && s[at..at + |needle|] == needle {
        return;
      }
      at := at + 1;
    }
    NoRoom(needle, s, at);
    at := |s| + 1;
  }
}
