/**
 Fixed-width big-endian integers, minimal numerals in a base, and hexadecimal digests.

 Each of the three writings is injective, which is what the encodings that use them rest on.
 */
module Numerals {
  import opened Basics

  // ---- `int.to_bytes(width, "big")` ----

  function Capacity(width: nat): (c: nat)
    ensures c > 0
  {
    if width == 0 then 1 else 256 * Capacity(width - 1)
  }

  function BigEndian(n: nat, width: nat): (r: Bytes)
    ensures |r| == width
  {
    if width == 0 then [] else BigEndian(n / 256, width - 1) + [n % 256]
  }

  lemma {:induction false} BigEndianInjective(m: nat, n: nat, width: nat)
    requires m < Capacity(width) && n < Capacity(width) && BigEndian(m, width) == BigEndian(n, width)
    ensures m == n
  {
    if width > 0 {
      var a, b := BigEndian(m / 256, width - 1), BigEndian(n / 256, width - 1);
      assert (a + [m % 256])[width - 1] == m % 256 && (b + [n % 256])[width - 1] == n % 256;
      assert (a + [m % 256])[..width - 1] == a && (b + [n % 256])[..width - 1] == b;
      BigEndianInjective(m / 256, n / 256, width - 1);
      assert m == m / 256 * 256 + m % 256 && n == n / 256 * 256 + n % 256;
    }
  }

  lemma CapacityOfWords()
    ensures Capacity(4) == 0x1_0000_0000
    ensures Capacity(8) == 0x1_0000_0000_0000_0000
  {
    assert Capacity(2) == 65536;
    assert Capacity(4) == 256 * (256 * Capacity(2));
    assert Capacity(6) == 256 * (256 * Capacity(4));
  }

  // ---- `str(n)` and `f"{n:o}"` ----

  const ZERO: byte := 48

  datatype Base = Octal | Decimal {
    function Size(): nat { if Octal? then 8 else 10 }

    function Quotient(n: nat): nat { if Octal? then n / 8 else n / 10 }

    function Remainder(n: nat): (r: nat)
      ensures r < Size()
      ensures n == Size() * Quotient(n) + r
    {
      if Octal? then n % 8 else n % 10
    }
  }

  function Numeral(base: Base, n: nat): (r: Bytes)
    ensures r != []
    ensures r[|r| - 1] == ZERO + base.Remainder(n)
    decreases n
  {
    if n < base.Size() then [ZERO + base.Remainder(n)]
    else Numeral(base, base.Quotient(n)) + [ZERO + base.Remainder(n)]
  }

  lemma {:induction false} NumeralInjective(base: Base, m: nat, n: nat)
    requires Numeral(base, m) == Numeral(base, n)
    ensures m == n
    decreases m
  {
    var a, b := Numeral(base, m), Numeral(base, n);
    assert m < base.Size() <==> |a| == 1;
    assert n < base.Size() <==> |b| == 1;
    if m >= base.Size() {
      assert a[..|a| - 1] == Numeral(base, base.Quotient(m)) && b[..|b| - 1] == Numeral(base, base.Quotient(n));
      NumeralInjective(base, base.Quotient(m), base.Quotient(n));
    }
  }

  // ---- `bytes.fromhex` ----

  predicate IsHexDigit(c: char) {
    '0' <= c <= '9' || 'a' <= c <= 'f'
  }

  function HexValue(c: char): (v: nat)
    requires IsHexDigit(c)
    ensures v < 16
  {
    if c <= '9' then c as int - '0' as int else c as int - 'a' as int + 10
  }

  /** `_validate_sha256`. */
  predicate ValidDigest(d: Digest) {
    |d| == 64 && forall c | c in d :: IsHexDigit(c)
  }

  function FromHex(d: string): (r: Bytes)
    requires |d| % 2 == 0 && forall c | c in d :: IsHexDigit(c)
    ensures |r| == |d| / 2
  {
    if d == [] then [] else [16 * HexValue(d[0]) + HexValue(d[1])] + FromHex(d[2..])
  }

  lemma HexPair(a: char, b: char, c: char, d: char)
    requires IsHexDigit(a) && IsHexDigit(b) && IsHexDigit(c) && IsHexDigit(d)
    requires 16 * HexValue(a) + HexValue(b) == 16 * HexValue(c) + HexValue(d)
    ensures a == c && b == d
  {
    assert HexValue(a) == HexValue(c) && HexValue(b) == HexValue(d);
  }

  lemma {:induction false} FromHexInjective(a: string, b: string)
    requires |a| % 2 == 0 && forall c | c in a :: IsHexDigit(c)
    requires |b| % 2 == 0 && forall c | c in b :: IsHexDigit(c)
    requires FromHex(a) == FromHex(b)
    ensures a == b
  {
    if a != [] {
      assert |b| == |a|;
      assert FromHex(a)[0] == 16 * HexValue(a[0]) + HexValue(a[1]);
      assert FromHex(b)[0] == 16 * HexValue(b[0]) + HexValue(b[1]);
      HexPair(a[0], a[1], b[0], b[1]);
      assert FromHex(a)[1..] == FromHex(a[2..]) && FromHex(b)[1..] == FromHex(b[2..]);
      FromHexInjective(a[2..], b[2..]);
      assert a == [a[0], a[1]] + a[2..] && b == [b[0], b[1]] + b[2..];
    }
  }
}
