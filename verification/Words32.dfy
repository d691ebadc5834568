/** Unsigned 32-bit arithmetic on integers, and which of its operations lose nothing. */
module Words32 {
  import opened Integers

  function Add(x: u32, y: u32): u32 { (x + y) % U32_LIMIT }

  function Times(x: u32, factor: u32): u32 { x * factor % U32_LIMIT }

  /** Bitwise exclusive or. */
  function Xor(x: nat, y: nat): nat {
    if x == 0 && y == 0 then 0 else (if x % 2 == y % 2 then 0 else 1) + 2 * Xor(x / 2, y / 2)
  }

  /** `std::rotl(x, r)`, where `power` is 2^r: `(x << r) | (x >> (32 - r))`. */
  function RotateLeft(x: u32, power: u32): u32
    requires 0 < power && power * (U32_LIMIT / power) == U32_LIMIT
  {
    RotateParts(x, power, U32_LIMIT / power);
    x * power % U32_LIMIT + x / (U32_LIMIT / power)
  }

  /** `x >> s`. */
  function ShiftRight(x: nat, s: nat): (r: nat)
    ensures r <= x
    decreases s
  {
    if s == 0 then x else ShiftRight(x / 2, s - 1)
  }

  lemma AddApart(x: u32, y: u32, z: u32)
    ensures Add(x, z) == Add(y, z) <==> x == y
    ensures Add(z, x) == Add(z, y) <==> x == y
  {
  }

  /** A factor with an inverse modulo 2^32, as every odd one has, loses nothing. */
  lemma TimesApart(x: u32, y: u32, factor: u32, inverse: u32)
    requires factor * inverse % U32_LIMIT == 1
    requires Times(x, factor) == Times(y, factor)
    ensures x == y
  {
    Undo(x, factor, inverse);
    Undo(y, factor, inverse);
  }

  lemma Undo(x: u32, factor: u32, inverse: u32)
    requires factor * inverse % U32_LIMIT == 1
    ensures Times(x, factor) * inverse % U32_LIMIT == x
  {
    var q := x * factor / U32_LIMIT;
    var k := factor * inverse / U32_LIMIT;
    assert Times(x, factor) == x * factor - q * U32_LIMIT;
    assert factor * inverse == k * U32_LIMIT + 1;
    calc {
      Times(x, factor) * inverse;
      (x * factor - q * U32_LIMIT) * inverse;
      x * (factor * inverse) - q * inverse * U32_LIMIT;
      x * (k * U32_LIMIT + 1) - q * inverse * U32_LIMIT;
      x + (x * k - q * inverse) * U32_LIMIT;
    }
    AddMultiple(x, x * k - q * inverse);
  }

  lemma AddMultiple(x: u32, m: int)
    ensures (x + m * U32_LIMIT) % U32_LIMIT == x
  {
  }

  // ---- Exclusive or ----

  lemma {:induction false} XorCancel(x: nat, y: nat)
    ensures Xor(Xor(x, y), y) == x
    decreases x + y
  {
    if x != 0 || y != 0 {
      XorCancel(x / 2, y / 2);
      var z := Xor(x, y);
      assert z / 2 == Xor(x / 2, y / 2);
      assert z % 2 == if x % 2 == y % 2 then 0 else 1;
    }
  }

  lemma {:induction false} XorComm(x: nat, y: nat)
    ensures Xor(x, y) == Xor(y, x)
    decreases x + y
  {
    if x != 0 || y != 0 {
      XorComm(x / 2, y / 2);
    }
  }

  lemma XorApart(x: nat, y: nat, z: nat)
    requires Xor(x, z) == Xor(y, z)
    ensures x == y
  {
    XorCancel(x, z);
    XorCancel(y, z);
  }

  lemma XorWordsApart(x: u32, y: u32, z: u32)
    ensures XorWords(x, z) == XorWords(y, z) ==> x == y
    ensures XorWords(z, x) == XorWords(z, y) ==> x == y
  {
    XorComm(z, x);
    XorComm(z, y);
    if Xor(x, z) == Xor(y, z) { XorApart(x, y, z); }
  }

  lemma {:induction false} XorBound(x: nat, y: nat, n: nat)
    requires x < Power2(n) && y < Power2(n)
    ensures Xor(x, y) < Power2(n)
    decreases n
  {
    if n > 0 {
      XorBound(x / 2, y / 2, n - 1);
    }
  }

  function Power2(n: nat): (p: nat)
    ensures p > 0
  {
    if n == 0 then 1 else 2 * Power2(n - 1)
  }

  lemma {:induction false} ShiftHalves(x: nat, s: nat)
    ensures ShiftRight(x, s) / 2 == ShiftRight(x / 2, s)
    decreases s
  {
    if s > 0 {
      ShiftHalves(x / 2, s - 1);
    }
  }

  /** `x ^ y` on u32 values. */
  function XorWords(x: u32, y: u32): u32 {
    Power2Of32();
    XorBound(x, y, 32);
    Xor(x, y)
  }

  lemma Power2Of32()
    ensures Power2(32) == U32_LIMIT
  {
    assert Power2(8) == 0x100;
    assert Power2(16) == 0x1_0000;
    assert Power2(24) == 0x100_0000;
  }

  /** `x ^ (x >> s)` loses nothing: the top bits survive and give back the rest, bit by bit. */
  lemma {:induction false} XorShiftApart(x: nat, y: nat, s: nat)
    requires s > 0 && Xor(x, ShiftRight(x, s)) == Xor(y, ShiftRight(y, s))
    ensures x == y
    decreases x + y
  {
    if x != 0 || y != 0 {
      ShiftHalves(x, s);
      ShiftHalves(y, s);
      XorHalves(x, ShiftRight(x, s));
      XorHalves(y, ShiftRight(y, s));
      XorShiftApart(x / 2, y / 2, s);
      assert ShiftRight(x, s) == ShiftRight(x / 2, s - 1) == ShiftRight(y / 2, s - 1) == ShiftRight(y, s);
      XorApart(x, y, ShiftRight(x, s));
    }
  }

  lemma XorHalves(x: nat, y: nat)
    ensures Xor(x, y) / 2 == Xor(x / 2, y / 2)
  {
  }

  // ---- Rotation ----

  lemma MulAbove(a: int, c: int, p: nat)
    requires a > c
    ensures a * p >= c * p + p
  {
    MulNonNegative(a - c - 1, p);
    assert (a - c - 1) * p == a * p - c * p - p;
  }

  lemma MulNonNegative(x: nat, y: nat)
    ensures x * y >= 0
  {
  }

  lemma Regroup(q: int, high: int, low: int, p: int, m: int)
    requires p * q == m
    ensures (q * high + low) * p == low * p + high * m
  {
    assert (q * high + low) * p == high * (p * q) + low * p;
  }

  lemma LowHalf(x: u32, p: nat, q: nat, high: nat, low: nat)
    requires p * q == U32_LIMIT && x == q * high + low && low < q
    ensures x * p % U32_LIMIT == low * p && low * p + p <= U32_LIMIT
  {
    Regroup(q, high, low, p, U32_LIMIT);
    MulAbove(q, low, p);
    MulNonNegative(low, p);
    AddMultiple(low * p, high);
  }

  lemma HighHalf(x: u32, p: nat, q: nat, high: nat)
    requires p * q == U32_LIMIT && q * high <= x
    ensures high < p
  {
    if high >= p {
      MulAbove(high + 1, p, q);
    }
  }

  /** The two halves of a rotation occupy disjoint bits. */
  lemma RotateParts(x: u32, p: nat, q: nat)
    requires p > 0 && q > 0 && p * q == U32_LIMIT
    ensures x * p % U32_LIMIT == (x % q) * p
    ensures 0 <= x / q < p && (x % q) * p + x / q < U32_LIMIT
  {
    assert x == q * (x / q) + x % q;
    LowHalf(x, p, q, x / q, x % q);
    HighHalf(x, p, q, x / q);
  }

  /** Rotations keep every bit. */
  lemma RotateApart(x: u32, y: u32, power: u32)
    requires 0 < power && power * (U32_LIMIT / power) == U32_LIMIT
    requires RotateLeft(x, power) == RotateLeft(y, power)
    ensures x == y
  {
    var q := U32_LIMIT / power;
    RotateParts(x, power, q);
    RotateParts(y, power, q);
    SamePair(x % q, x / q, y % q, y / q, power);
  }

  lemma SamePair(a: int, b: int, c: int, d: int, p: int)
    requires 0 <= b < p && 0 <= d < p && a * p + b == c * p + d
    ensures a == c && b == d
  {
    if a > c { MulAbove(a, c, p); }
    if a < c { MulAbove(c, a, p); }
  }

  /** `x ^ (x >> s)` on u32 values. */
  function XorShift(x: u32, s: nat): u32 {
    XorWords(x, ShiftRight(x, s))
  }

  // ---- Exclusive or of given values ----

  lemma {:induction false} XorZero(x: nat)
    ensures Xor(x, 0) == x
  {
    if x != 0 { XorZero(x / 2); }
  }

  /** Exclusive or, one binary digit at a time. */
  lemma XorDigit(a: nat, b: nat, c: nat, d: nat)
    requires b < 2 && d < 2
    ensures Xor(2 * a + b, 2 * c + d) == 2 * Xor(a, c) + (if b == d then 0 else 1)
  {
    assert (2 * a + b) / 2 == a && (2 * c + d) / 2 == c;
  }

  lemma XorPair(a: nat, b: nat, c: nat, d: nat)
    requires b < 4 && d < 4
    ensures Xor(4 * a + b, 4 * c + d) == 4 * Xor(a, c) + Xor(b, d)
  {
    hide Xor;
    assert 2 * (2 * a + b / 2) + b % 2 == 4 * a + b && 2 * (2 * c + d / 2) + d % 2 == 4 * c + d;
    assert 2 * (b / 2) + b % 2 == b && 2 * (d / 2) + d % 2 == d;
    XorDigit(2 * a + b / 2, b % 2, 2 * c + d / 2, d % 2);
    XorDigit(a, b / 2, c, d / 2);
    XorDigit(b / 2, b % 2, d / 2, d % 2);
    XorDigit(0, b / 2, 0, d / 2);
    XorZero(0);
  }

  lemma XorQuads()
    ensures Xor(0, 0) == 0 && Xor(0, 1) == 1 && Xor(0, 2) == 2 && Xor(0, 3) == 3
    ensures Xor(1, 0) == 1 && Xor(1, 1) == 0 && Xor(1, 2) == 3 && Xor(1, 3) == 2
    ensures Xor(2, 0) == 2 && Xor(2, 1) == 3 && Xor(2, 2) == 0 && Xor(2, 3) == 1
    ensures Xor(3, 0) == 3 && Xor(3, 1) == 2 && Xor(3, 2) == 1 && Xor(3, 3) == 0
  {
  }

  /** And one hexadecimal digit at a time, as two digits of base four, on given values. */
  lemma XorNext(a: nat, b1: nat, b0: nat, c: nat, d1: nat, d0: nat, x: nat, y1: nat, y0: nat)
    requires b1 < 4 && b0 < 4 && d1 < 4 && d0 < 4
    requires Xor(a, c) == x && Xor(b1, d1) == y1 && Xor(b0, d0) == y0
    ensures Xor(16 * a + 4 * b1 + b0, 16 * c + 4 * d1 + d0) == 16 * x + 4 * y1 + y0
  {
    hide Xor;
    XorPair(a, b1, c, d1);
    XorPair(4 * a + b1, b0, 4 * c + d1, d0);
  }

  lemma ShiftValue(x: nat, s: nat, y: nat)
    requires s == 13 || s == 15 || s == 16
    requires y == x / (if s == 13 then 0x2000 else if s == 15 then 0x8000 else 0x1_0000)
    ensures ShiftRight(x, s) == y
  {
    ShiftIsDivision(x, s);
    Powers();
  }

  lemma Powers()
    ensures Power2(13) == 0x2000 && Power2(15) == 0x8000 && Power2(16) == 0x1_0000
  {
    assert Power2(8) == 0x100;
    assert Power2(13) == 0x2000;
  }

  lemma {:induction false} ShiftIsDivision(x: nat, s: nat)
    ensures ShiftRight(x, s) == x / Power2(s)
    decreases s
  {
    if s > 0 {
      ShiftIsDivision(x / 2, s - 1);
      HalfFirst(x, Power2(s - 1));
    }
  }

  lemma HalfFirst(x: nat, p: nat)
    requires p > 0
    ensures x / 2 / p == x / (2 * p)
  {
    var q, r := x / 2 / p, x / 2 % p;
    assert x / 2 == p * q + r;
    assert x == (2 * p) * q + (2 * r + x % 2);
    Quotient(x, 2 * p, q, 2 * r + x % 2);
  }

  lemma Quotient(x: nat, d: nat, q: nat, r: nat)
    requires d > 0 && x == d * q + r && r < d
    ensures x / d == q
  {
    var q', r' := x / d, x % d;
    assert x == d * q' + r';
    if q' > q { MulAbove(q', q, d); }
    if q > q' { MulAbove(q, q', d); }
  }
}
