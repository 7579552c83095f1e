/** URL decoding. */
module UrlDecode {
  import opened Bytes

  /** `from_hex`: the value of a hex digit; other characters give some byte. */
  function FromHex(ch: byte): (v: nat)
    ensures v < 256
  {
    if IsDigit(ch) then ch as int - '0' as int
    else
      var lower := if 'A' <= ch <= 'Z' then ch as int + 32 else ch as int;
      (lower - 'a' as int + 10) % 256
  }

  /** Bitwise or of the low `bits` bits of two numbers. */
  function Or(x: nat, y: nat, bits: nat): nat {
    if bits == 0 then 0
    else (if x % 2 == 1 || y % 2 == 1 then 1 else 0) + 2 * Or(x / 2, y / 2, bits - 1)
  }

  lemma {:induction false} OrInRange(x: nat, y: nat, bits: nat)
    ensures Or(x, y, bits) < Pow2(bits)
  {
    if bits == 0 {
    } else {
      OrInRange(x / 2, y / 2, bits - 1);
    }
  }

  lemma ByteRange()
    ensures Pow2(8) == 256 && Pow2(4) == 16
  {
    assert Pow2(4) == 16;
  }

  /** The byte two hex digits stand for: the first shifted by four, or'ed with the second,
      cut to a `char`. */
  function HexPair(hi: byte, lo: byte): byte {
    OrInRange(FromHex(hi) * 16, FromHex(lo), 8);
    ByteRange();
    Or(FromHex(hi) * 16, FromHex(lo), 8) as char
  }

  /** What a string without NUL decodes to. */
  function Decode(s: bytes): (d: bytes)
    ensures |d| <= |s|
    decreases |s|
  {
    if s == [] then []
    else if s[0] == '%' then
      if |s| > 2 then [HexPair(s[1], s[2])] + Decode(s[3..]) else Decode(s[1..])
    else if s[0] == '+' then [' '] + Decode(s[1..])
    else [s[0]] + Decode(s[1..])
  }

  lemma DecodeEnd()
    ensures Decode([]) == []
  {
  }

  /** One turn of the decoding loop, on indices. */
  lemma DecodeStep(s: bytes, p: nat)
    requires p < |s|
    ensures s[p] == '%' ==>
      Decode(s[p..]) == if p + 2 < |s| then [HexPair(s[p + 1], s[p + 2])] + Decode(s[p + 3..]) else Decode(s[p + 1..])
    ensures s[p] != '%' ==> Decode(s[p..]) == [if s[p] == '+' then ' ' else s[p]] + Decode(s[p + 1..])
  {
    hide HexPair;
    var r := s[p..];
    assert r[1..] == s[p + 1..];
    if p + 2 < |s| { assert r[3..] == s[p + 3..]; }
  }

  /** `urldecode` on a NUL-terminated string of at most `size` bytes. The result buffer holds
      the decoded bytes and a terminator. */
  method UrlDecodeString(str: bytes, size: nat) returns (buf: array<byte>)
    requires NUL in str && IndexOf(str, NUL) <= size
    ensures fresh(buf) && buf.Length == size + 1
    ensures var d := Decode(CStr(str)); |d| <= size && buf[..|d|] == d && buf[|d|] == NUL
  {
    hide HexPair, IndexOf, Decode;
    buf := new byte[size + 1];
    var p, n := 0, 0;
    ghost var text := CStr(str);
    DecodeEnd();
    while str[p] != NUL
      invariant p <= |text| < |str| && n <= p
      invariant buf[..n] + Decode(text[p..]) == Decode(text)
      decreases |text| - p
    {
      DecodeStep(text, p);
      if str[p] == '%' {
        if str[p + 1] != NUL && str[p + 2] != NUL {
          buf[n] := HexPair(str[p + 1], str[p + 2]);
          n := n + 1;
          p := p + 2;
        }
      } else if str[p] == '+' {
        buf[n] := ' ';
        n := n + 1;
      } else {
        buf[n] := str[p];
        n := n + 1;
      }
      p := p + 1;
    }
    buf[n] := NUL;
  }

  /** How one byte may be written: as it is, as a plus sign, or as a percent sign and two hex
      digits, each in either case. */
  datatype Style = Plain | Plus | Percent(upperHi: bool, upperLo: bool)

  predicate Allowed(b: byte, style: Style) {
    match style
    case Plain => b != '%' && b != '+' && b != NUL
    case Plus => b == ' '
    case Percent(_, _) => true
  }

  function HexDigit(n: nat, upper: bool): byte
    requires n < 16
  {
    if n < 10 then ('0' as int + n) as char
    else if upper then ('A' as int + n - 10) as char
    else ('a' as int + n - 10) as char
  }

  function EncodeByte(b: byte, style: Style): (t: bytes)
  {
    match style
    case Plain => [b]
    case Plus => ['+']
    case Percent(hi, lo) => ['%', HexDigit(b as int / 16, hi), HexDigit(b as int % 16, lo)]
  }

  function Encode(data: bytes, styles: seq<Style>): bytes
    requires |styles| == |data|
  {
    if data == [] then [] else EncodeByte(data[0], styles[0]) + Encode(data[1..], styles[1..])
  }

  lemma FromHexDigit(n: nat, upper: bool)
    requires n < 16
    ensures FromHex(HexDigit(n, upper)) == n
  {
  }

  lemma {:induction false} OrZero(x: nat, bits: nat)
    requires x < Pow2(bits)
    ensures Or(x, 0, bits) == x
  {
    if bits == 0 {
    } else {
      OrZero(x / 2, bits - 1);
    }
  }

  /** A number shifted by k bits shares none with a number of k bits. */
  lemma {:induction false} OrJoins(hi: nat, lo: nat, k: nat, bits: nat)
    requires lo < Pow2(k) && k <= bits && hi < Pow2(bits - k)
    ensures Or(hi * Pow2(k), lo, bits) == hi * Pow2(k) + lo
  {
    if k > 0 {
      assert hi * Pow2(k) == 2 * (hi * Pow2(k - 1));
      OrJoins(hi, lo / 2, k - 1, bits - 1);
    } else {
      OrZero(hi, bits);
    }
  }

  lemma NibblesJoin(hi: nat, lo: nat)
    requires hi < 16 && lo < 16
    ensures Or(hi * 16, lo, 8) == hi * 16 + lo
  {
    ByteRange();
    OrJoins(hi, lo, 4, 8);
  }

  lemma HexPairByte(b: byte, hi: bool, lo: bool)
    ensures HexPair(HexDigit(b as int / 16, hi), HexDigit(b as int % 16, lo)) == b
  {
    var h, l := b as int / 16, b as int % 16;
    FromHexDigit(h, hi);
    FromHexDigit(l, lo);
    NibblesJoin(h, l);
  }

  /** Decoding undoes every encoding of every byte string. */
  lemma {:induction false} DecodeEncode(data: bytes, styles: seq<Style>)
    requires |styles| == |data|
    requires forall i :: 0 <= i < |data| ==> Allowed(data[i], styles[i])
    ensures Decode(Encode(data, styles)) == data
  {
    if data != [] {
      var b, rest := data[0], Encode(data[1..], styles[1..]);
      DecodeEncode(data[1..], styles[1..]);
      var t := EncodeByte(b, styles[0]) + rest;
      assert t[|t| - |rest|..] == rest;
      match styles[0]
      case Percent(hi, lo) =>
        HexPairByte(b, hi, lo);
        assert t[3..] == rest;
      case _ =>
        assert t[1..] == rest;
    }
  }

  // ----- what is no encoding

  /** Bit i of x. */
  predicate Bit(x: nat, i: nat) { if i == 0 then x % 2 == 1 else Bit(x / 2, i - 1) }

  lemma {:induction false} OrBits(x: nat, y: nat, bits: nat, i: nat)
    requires i < bits
    ensures Bit(Or(x, y, bits), i) <==> Bit(x, i) || Bit(y, i)
  {
    if i == 0 {
    } else {
      OrBits(x / 2, y / 2, bits - 1, i - 1);
      assert Or(x, y, bits) / 2 == Or(x / 2, y / 2, bits - 1);
    }
  }

  /** What `from_hex` makes of any character, cut to a byte. */
  function HexValue(c: byte): int {
    if '0' <= c <= '9' then c as int - 48
    else ((if 'A' <= c <= 'Z' then c as int + 32 else c as int) - 87) % 256
  }

  lemma HexPairIs(x: byte, y: byte)
    ensures HexPair(x, y) as int == Or(FromHex(x) * 16, FromHex(y), 8)
  {
    hide FromHex, Or;
    OrInRange(FromHex(x) * 16, FromHex(y), 8);
    ByteRange();
  }

  lemma FromHexIs(c: byte)
    ensures FromHex(c) == HexValue(c)
  {
  }

  /** A percent sign and two bytes behind it stand for one byte, whether they are hex digits or
      not: the value of the first, shifted by four bits, or'ed with that of the second. With
      fewer than two bytes behind it a percent sign is dropped. */
  lemma PercentSigns(x: byte, y: byte, rest: bytes)
    ensures var d := Decode(['%', x, y] + rest);
      && d != [] && d[1..] == Decode(rest)
      && forall i: nat :: i < 8 ==> (Bit(d[0] as int, i) <==> Bit(HexValue(x) * 16, i) || Bit(HexValue(y), i))
    ensures Decode(['%', x]) == Decode([x]) && Decode(['%']) == []
  {
    hide FromHex, HexPair, HexValue, Bit, Or;
    FromHexIs(x);
    FromHexIs(y);
    var t := ['%', x, y] + rest;
    assert t[3..] == rest && ['%', x][1..] == [x];
    HexPairIs(x, y);
    forall i: nat | i < 8
      ensures Bit(HexPair(x, y) as int, i) <==> Bit(HexValue(x) * 16, i) || Bit(HexValue(y), i)
    {
      OrBits(FromHex(x) * 16, FromHex(y), 8, i);
    }
  }
}
