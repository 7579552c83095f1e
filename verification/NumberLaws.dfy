/** What the scanners read of numbers. */
module NumberLaws {
  import opened Bytes
  import opened Tokens
  import opened Scanners
  import opened ScannerLaws
  import opened StringLaws

  predicate Decimal(c: byte) { '0' <= c <= '9' }

  /** The decimal digits of r that start at i end at j. */
  predicate DigitsTo(r: bytes, i: nat, j: nat) {
    && i <= j <= |r| && (forall k :: i <= k < j ==> Decimal(r[k]))
    && (j < |r| ==> !Decimal(r[j]))
  }

  /** 0x and 0b, in either case. */
  predicate IsRadix(r: bytes) { |r| > 1 && r[0] == '0' && r[1] in ['x', 'X', 'b', 'B'] }

  predicate RadixDigit(hex: bool, c: byte) {
    || c as int == 0 || c == '0' || c == '1'
    || (hex && ('0' <= c <= '9' || 'a' <= c <= 'f' || 'A' <= c <= 'F'))
  }

  lemma ScanNumber(s: bytes, p: nat, flags: Flags, lookup: Lookup)
    requires p < |s| && (Decimal(s[p]) || s[p] == '.')
    ensures ScanAt(s, p, flags, lookup) == Number(s[p..])
  {
    hide ScanAt, Word, Number, StringCore, MoneyTag, Tick, DigitString, Span, EString, UString, QStringCore, NqString,
         Money, Operator2, EolComment, Slash, Dash, Hash, BWord, Var;
    ScanFromHere(s, p, flags, lookup);
  }

  lemma RadixHasDigits()
    ensures HEX_DIGITS != "" && BINARY_DIGITS != ""
  {
  }

  /** A radix prefix with its n digits, or a bare word if there are none. */
  lemma RadixNumbers(s: bytes, p: nat, flags: Flags, lookup: Lookup, n: nat)
    requires p < |s| && IsRadix(s[p..]) && n + 2 <= |s[p..]|
    requires var r := s[p..];
      var hex := r[1] == 'x' || r[1] == 'X';
      (forall k :: 2 <= k < n + 2 ==> RadixDigit(hex, r[k])) && (n + 2 < |r| ==> !RadixDigit(hex, r[n + 2]))
    ensures ScanAt(s, p, flags, lookup) ==
      Scan(n + 2, Bare(0, if n == 0 then 'n' else '1', s[p..][..n + 2]), 0, 0)
  {
    hide Span, Accepts, HEX_DIGITS, BINARY_DIGITS, Cut, Kept, Mantissa, Digits, ScanAt;
    ScanNumber(s, p, flags, lookup);
    var r := s[p..];
    var hex := r[1] == 'x' || r[1] == 'X';
    var digits := if hex then HEX_DIGITS else BINARY_DIGITS;
    assert digits != "" by { RadixHasDigits(); }
    forall k | 0 <= k < n ensures Accepts(digits, r[2..][k]) { HexDigitsAre(r[k + 2]); }
    if n + 2 < |r| { HexDigitsAre(r[n + 2]); }
    SpanOf(r[2..], digits, n);
    CutIsKept(r[..n + 2]);
  }

  lemma {:induction false} DigitsOf(r: bytes, n: nat)
    requires DigitsTo(r, 0, n)
    ensures Digits(r) == n
  {
  }

  lemma DigitsFrom(r: bytes, i: nat, j: nat)
    requires DigitsTo(r, i, j)
    ensures Digits(r[i..]) == j - i
  {
    hide Decimal;
    forall k | 0 <= k < j - i ensures Decimal(r[i..][k]) { assert r[i..][k] == r[i + k]; }
    DigitsOf(r[i..], j - i);
  }

  /** Digits to a, and then to m if a dot follows them. */
  predicate IsMantissa(r: bytes, a: nat, m: nat) {
    && DigitsTo(r, 0, a)
    && if a < |r| && r[a] == '.' then DigitsTo(r, a + 1, m) else m == a
  }

  predicate HasExponent(r: bytes, m: nat) { m < |r| && (r[m] == 'e' || r[m] == 'E') }

  /** Where the digits of the exponent start, behind an optional sign. */
  function ExponentFrom(r: bytes, m: nat): nat {
    if m + 1 < |r| && (r[m + 1] == '+' || r[m + 1] == '-') then m + 2 else m + 1
  }

  /** A d or an f behind the digits belongs to the number at the end of the input, and before
      a blank, a semicolon, or a u, as in `1fUNION`. */
  predicate TakesSuffix(r: bytes, x: nat) {
    && x < |r| && r[x] in ['d', 'D', 'f', 'F']
    && (x + 1 == |r| || Blank(r[x + 1]) || r[x + 1] in [';', 'u', 'U'])
  }

  lemma MantissaIs(r: bytes, a: nat, m: nat)
    requires IsMantissa(r, a, m)
    ensures Mantissa(r) == m <= |r|
  {
    hide Digits, Decimal;
    DigitsOf(r, a);
    if a < |r| && r[a] == '.' { DigitsFrom(r, a + 1, m); }
  }

  lemma SuffixIs(r: bytes, x: nat)
    requires x <= |r|
    ensures WithSuffix(r, x) == if TakesSuffix(r, x) then x + 1 else x
  {
    hide IsWhite, Blank;
    if x + 1 < |r| { BlankIsWhite(r[x + 1]); }
  }

  lemma DotIsNoDigit()
    ensures !Decimal('.')
  {
  }

  /** A lone dot is a token of its own. */
  lemma Dots(s: bytes, p: nat, flags: Flags, lookup: Lookup)
    requires p < |s| && s[p] == '.' && (p + 1 < |s| ==> !Decimal(s[p + 1]))
    ensures ScanAt(s, p, flags, lookup) == Scan(1, Bare(0, '.', ['.']), 0, 0)
  {
    hide ScanAt, Mantissa, WithSuffix, Decimal;
    ScanNumber(s, p, flags, lookup);
    var r := s[p..];
    assert !Decimal('.') by { DotIsNoDigit(); }
    MantissaIs(r, 0, 1);
  }

  lemma DigitsEnd(r: bytes, i: nat, j: nat)
    requires DigitsTo(r, i, j)
    ensures i <= j <= |r|
  {
  }

  lemma NoRadix(r: bytes)
    requires r != [] && !IsRadix(r)
    ensures RadixDigits(r) == ""
  {
  }

  /** Decimal numbers: a mantissa to m, perhaps an exponent with digits to x, perhaps a suffix.
      With an exponent mark but no digits behind it, it is a bare word. */
  lemma Decimals(s: bytes, p: nat, flags: Flags, lookup: Lookup, a: nat, m: nat, x: nat)
    requires p < |s| && (Decimal(s[p]) || s[p] == '.') && !IsRadix(s[p..])
    requires IsMantissa(s[p..], a, m) && !(m == 1 && s[p] == '.')
    requires if HasExponent(s[p..], m) then DigitsTo(s[p..], ExponentFrom(s[p..], m), x) else x == m
    ensures var r := s[p..];
      var end := if TakesSuffix(r, x) then x + 1 else x;
      end <= |r| && ScanAt(s, p, flags, lookup) ==
        Scan(end, Bare(0, if HasExponent(r, m) && x == ExponentFrom(r, m) then 'n' else '1', r[..end]), 0, 0)
  {
    hide ScanAt, Mantissa, WithSuffix, Decimal, Digits, Cut, Kept, DigitsTo, IsMantissa, TakesSuffix;
    ScanNumber(s, p, flags, lookup);
    var r := s[p..];
    NoRadix(r);
    MantissaIs(r, a, m);
    if HasExponent(r, m) {
      DigitsFrom(r, ExponentFrom(r, m), x);
      DigitsEnd(r, ExponentFrom(r, m), x);
    }
    SuffixIs(r, x);
    CutIsKept(r[..WithSuffix(r, x)]);
  }
}
