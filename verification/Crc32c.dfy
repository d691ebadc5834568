/**
 CRC-32C (section 12.1 of RFC 3720): the bit-at-a-time definition and the algebra that the
 table-driven forms rest on. Proofs over whole messages hide the bit-vector operators and
 use only the laws proved here.
 */
module Crc32c {
  // ---- The definition: a reflected shift register fed one bit at a time ----

  function Xor(x: bv32, y: bv32): bv32 { x ^ y }

  /** One step of the register; the constant is the reversed Castagnoli polynomial. */
  function BitStep(crc: bv32): bv32 {
    (crc >> 1) ^ (if crc & 1 == 1 then 0x82F63B78 else 0)
  }

  function FeedBit(crc: bv32, bit: bool): bv32 {
    BitStep(Xor(crc, if bit then 1 else 0))
  }

  function FeedBits(crc: bv32, bits: seq<bool>): bv32
    decreases |bits|
  {
    if bits == [] then crc else FeedBits(FeedBit(crc, bits[0]), bits[1..])
  }

  predicate LowBit(w: bv32) { w & 1 == 1 }

  function Half(w: bv32): bv32 { w >> 1 }

  /** The `n` low bits of `w`, least significant first. */
  function LowBits(w: bv32, n: nat): (r: seq<bool>)
    ensures |r| == n
  {
    if n == 0 then [] else [LowBit(w)] + LowBits(Half(w), n - 1)
  }

  /** The bits of a message: bytes in order, least significant bit first. */
  function Bits(data: seq<bv8>): (r: seq<bool>)
    ensures |r| == 8 * |data|
  {
    if data == [] then [] else LowBits(data[0] as bv32, 8) + Bits(data[1..])
  }

  function Checksum(data: seq<bv8>): bv32 {
    !FeedBits(0xFFFF_FFFF, Bits(data))
  }

  // ---- The same register, a byte at a time ----

  /** `n` steps with no input. */
  function Shift(crc: bv32, n: nat): bv32
    decreases n
  {
    if n == 0 then crc else Shift(BitStep(crc), n - 1)
  }

  function ByteStep(crc: bv32, b: bv8): bv32 {
    Shift(Xor(crc, b as bv32), 8)
  }

  function Feed(crc: bv32, data: seq<bv8>): bv32
    decreases |data|
  {
    if data == [] then crc else Feed(ByteStep(crc, data[0]), data[1..])
  }

  lemma {:induction false} FeedBitsConcat(crc: bv32, x: seq<bool>, y: seq<bool>)
    ensures FeedBits(crc, x + y) == FeedBits(FeedBits(crc, x), y)
    decreases |x|
  {
    hide FeedBit;
    if x == [] {
      assert x + y == y;
    } else {
      assert (x + y)[1..] == x[1..] + y;
      FeedBitsConcat(FeedBit(crc, x[0]), x[1..], y);
    }
  }

  lemma {:induction false} FeedConcat(crc: bv32, x: seq<bv8>, y: seq<bv8>)
    ensures Feed(crc, x + y) == Feed(Feed(crc, x), y)
    decreases |x|
  {
    hide ByteStep;
    if x == [] {
      assert x + y == y;
    } else {
      assert (x + y)[1..] == x[1..] + y;
      FeedConcat(ByteStep(crc, x[0]), x[1..], y);
    }
  }

  lemma {:induction false} ShiftConcat(x: bv32, m: nat, n: nat)
    ensures Shift(x, m + n) == Shift(Shift(x, m), n)
    decreases m
  {
    hide BitStep;
    if m > 0 {
      ShiftConcat(BitStep(x), m - 1, n);
    }
  }

  // ---- Linearity over GF(2) ----

  lemma XorAssoc(x: bv32, y: bv32, z: bv32)
    ensures Xor(x, Xor(y, z)) == Xor(Xor(x, y), z)
  {
  }

  lemma XorComm(x: bv32, y: bv32)
    ensures Xor(x, y) == Xor(y, x)
  {
  }

  lemma XorZero(x: bv32)
    ensures Xor(x, 0) == x
  {
  }

  lemma XorCancel(x: bv32, y: bv32)
    ensures Xor(Xor(x, y), y) == x
  {
  }

  lemma BitStepCases(x: bv32)
    ensures BitStep(x) == if LowBit(x) then Xor(Half(x), 0x82F63B78) else Half(x)
  {
    assert (x >> 1) ^ 0 == x >> 1;
  }

  lemma HalfXor(x: bv32, y: bv32)
    ensures Half(Xor(x, y)) == Xor(Half(x), Half(y))
    ensures LowBit(Xor(x, y)) <==> LowBit(x) != LowBit(y)
  {
  }

  lemma BitStepXor(x: bv32, y: bv32)
    ensures BitStep(Xor(x, y)) == Xor(BitStep(x), BitStep(y))
  {
    hide BitStep, Xor, Half, LowBit;
    BitStepCases(x);
    BitStepCases(y);
    BitStepCases(Xor(x, y));
    HalfXor(x, y);
    XorShuffle(Half(x), Half(y), 0x82F63B78);
  }

  lemma XorShuffle(x: bv32, y: bv32, p: bv32)
    ensures Xor(Xor(x, p), Xor(y, p)) == Xor(x, y)
    ensures Xor(Xor(x, p), y) == Xor(Xor(x, y), p) == Xor(x, Xor(y, p))
  {
    hide Xor;
    XorAssoc(x, y, p);
    XorAssoc(x, p, y);
    XorComm(y, p);
    XorAssoc(Xor(x, p), y, p);
    XorCancel(Xor(x, y), p);
  }

  lemma {:induction false} ShiftXor(x: bv32, y: bv32, n: nat)
    ensures Shift(Xor(x, y), n) == Xor(Shift(x, n), Shift(y, n))
    decreases n
  {
    hide BitStep, Xor;
    if n > 0 {
      BitStepXor(x, y);
      ShiftXor(BitStep(x), BitStep(y), n - 1);
    }
  }

  // ---- Bits waiting in the register ----

  /** What is left of `w` above its `n` low bits. */
  function Above(w: bv32, n: nat): bv32 {
    if n == 0 then w else Above(Half(w), n - 1)
  }

  lemma SplitLowBit(w: bv32)
    ensures w == Xor(if LowBit(w) then 1 else 0, w & 0xFFFF_FFFE)
    ensures !LowBit(w & 0xFFFF_FFFE) && Half(w & 0xFFFF_FFFE) == Half(w)
  {
  }

  /** A bit of `w` can wait in the register: feeding it now or mixing it in first is the same. */
  lemma AbsorbBit(crc: bv32, w: bv32)
    ensures BitStep(Xor(crc, w)) == Xor(FeedBit(crc, LowBit(w)), Half(w))
  {
    hide BitStep, Xor, Half, LowBit;
    var high := w & 0xFFFF_FFFE;
    var low: bv32 := if LowBit(w) then 1 else 0;
    SplitLowBit(w);
    XorAssoc(crc, low, high);
    BitStepXor(Xor(crc, low), high);
    BitStepCases(high);
  }

  /** Feeding the low bits of a word is `n` steps of the register with the word mixed in first. */
  lemma {:induction false} FeedLowBits(crc: bv32, w: bv32, n: nat)
    ensures Xor(FeedBits(crc, LowBits(w, n)), Above(w, n)) == Shift(Xor(crc, w), n)
    decreases n
  {
    hide BitStep, Xor, Half, LowBit, FeedBit;
    if n > 0 {
      AbsorbBit(crc, w);
      var bits := LowBits(w, n);
      assert bits[1..] == LowBits(Half(w), n - 1);
      FeedLowBits(FeedBit(crc, bits[0]), Half(w), n - 1);
    }
  }

  lemma ByteHasEightBits(b: bv8)
    ensures Above(b as bv32, 8) == 0
  {
    Powers();
    NothingAbove(b as bv32, 0x100, 8);
  }

  /** `p` is the `n`-th power of two. */
  predicate IsPower(p: bv32, n: nat) {
    if n == 0 then p == 1 else !LowBit(p) && IsPower(Half(p), n - 1)
  }

  lemma {:induction false} NothingAbove(w: bv32, p: bv32, n: nat)
    requires w < p && IsPower(p, n)
    ensures Above(w, n) == 0
    decreases n
  {
    hide LowBit, Half;
    if n > 0 {
      HalfMonotone(w, p);
      NothingAbove(Half(w), Half(p), n - 1);
    }
  }

  lemma HalfMonotone(w: bv32, p: bv32)
    requires w < p && !LowBit(p)
    ensures Half(w) < Half(p)
  {
  }

  lemma Powers()
    ensures IsPower(0x100, 8)
    ensures IsPower(0x8000_0000, 31)
  {
    assert IsPower(0x100, 8);
    assert IsPower(0x1_0000, 16);
    assert IsPower(0x100_0000, 24);
  }

  /** A byte step is eight bit steps. */
  lemma ByteStepIsEightBits(crc: bv32, b: bv8)
    ensures ByteStep(crc, b) == FeedBits(crc, LowBits(b as bv32, 8))
  {
    hide Xor, FeedBits, LowBits, Above, Shift;
    FeedLowBits(crc, b as bv32, 8);
    ByteHasEightBits(b);
    XorZero(FeedBits(crc, LowBits(b as bv32, 8)));
  }

  lemma {:induction false} FeedIsFeedBits(crc: bv32, data: seq<bv8>)
    ensures Feed(crc, data) == FeedBits(crc, Bits(data))
    decreases |data|
  {
    hide ByteStep, FeedBit, LowBits;
    if data != [] {
      ByteStepIsEightBits(crc, data[0]);
      FeedBitsConcat(crc, LowBits(data[0] as bv32, 8), Bits(data[1..]));
      FeedIsFeedBits(ByteStep(crc, data[0]), data[1..]);
    }
  }

  lemma ChecksumByBytes(data: seq<bv8>)
    ensures Checksum(data) == !Feed(0xFFFF_FFFF, data)
  {
    hide Feed, FeedBits, Bits;
    FeedIsFeedBits(0xFFFF_FFFF, data);
  }

  // ---- Burst detection ----

  predicate AtLeast(x: bv32, p: bv32) { x >= p }

  /** Two registers whose difference reaches bit `n` cannot be brought together by `n` bits. */
  lemma {:induction false} NoMerge(c: bv32, d: bv32, x: seq<bool>, y: seq<bool>, p: bv32, n: nat)
    requires |x| == |y| == n && IsPower(p, n) && AtLeast(Xor(c, d), p)
    ensures FeedBits(c, x) != FeedBits(d, y)
    decreases n
  {
    if n == 0 {
      assert !AtLeast(Xor(c, c), 1);
    } else {
      hide LowBit, Half, Xor, FeedBit, AtLeast;
      DifferenceDrops(c, d, x[0], y[0], p);
      NoMerge(FeedBit(c, x[0]), FeedBit(d, y[0]), x[1..], y[1..], Half(p), n - 1);
    }
  }

  /** A difference of at least `p` is at least `p / 2` one step later, whatever is fed. */
  lemma DifferenceDrops(c: bv32, d: bv32, a: bool, b: bool, p: bv32)
    requires AtLeast(Xor(c, d), p)
    ensures AtLeast(Xor(FeedBit(c, a), FeedBit(d, b)), Half(p))
  {
    hide Xor, BitStep, Half, AtLeast;
    var u: bv32 := if a then 1 else 0;
    var v: bv32 := if b then 1 else 0;
    BitStepXor(Xor(c, u), Xor(d, v));
    LowInputs(c, d, u, v);
    HalfAtLeast(Xor(c, d), p);
    BitStepAtLeast(Xor(Xor(c, u), Xor(d, v)), Half(p));
  }

  lemma HalfAtLeast(x: bv32, p: bv32)
    requires AtLeast(x, p)
    ensures AtLeast(Half(x), Half(p))
  {
  }

  lemma BitStepAtLeast(e: bv32, floor: bv32)
    requires AtLeast(Half(e), floor)
    ensures AtLeast(BitStep(e), floor)
  {
    BitStepCases(e);
    TopBitWins(Half(e), floor);
  }

  lemma TopBitWins(h: bv32, floor: bv32)
    requires floor <= h < 0x8000_0000
    ensures Xor(h, 0x82F63B78) >= floor
  {
  }

  lemma LowInputs(c: bv32, d: bv32, u: bv32, v: bv32)
    requires u in {0, 1} && v in {0, 1}
    ensures Half(Xor(Xor(c, u), Xor(d, v))) == Half(Xor(c, d))
  {
    assert Half(0) == 0 == Half(1);
    hide Xor, Half;
    HalfXor(Xor(c, u), Xor(d, v));
    HalfXor(c, u);
    HalfXor(d, v);
    HalfXor(c, d);
    XorZero(Half(c));
    XorZero(Half(d));
  }

  /** Feeding the same bits never brings different registers together. */
  lemma {:induction false} FeedBitsInjective(c: bv32, d: bv32, x: seq<bool>)
    requires c != d
    ensures FeedBits(c, x) != FeedBits(d, x)
    decreases |x|
  {
    if x != [] {
      hide FeedBit;
      FeedBitInjective(c, d, x[0]);
      FeedBitsInjective(FeedBit(c, x[0]), FeedBit(d, x[0]), x[1..]);
    }
  }

  lemma FeedBitInjective(c: bv32, d: bv32, bit: bool)
    requires c != d
    ensures FeedBit(c, bit) != FeedBit(d, bit)
  {
    var u: bv32 := if bit then 1 else 0;
    hide Xor, BitStep;
    XorCancel(c, u);
    XorCancel(d, u);
    if BitStep(Xor(c, u)) == BitStep(Xor(d, u)) {
      BitStepInjective(Xor(c, u), Xor(d, u));
    }
  }

  lemma BitStepInjective(x: bv32, y: bv32)
    requires BitStep(x) == BitStep(y)
    ensures x == y
  {
  }

  /** Two different windows of at most 32 bits leave different registers. */
  lemma {:induction false} WindowInjective(c: bv32, x: seq<bool>, y: seq<bool>)
    requires |x| == |y| <= 32 && x != y
    ensures FeedBits(c, x) != FeedBits(c, y)
    decreases |x|
  {
    hide FeedBit;
    if x[0] == y[0] {
      assert x == [x[0]] + x[1..] && y == [y[0]] + y[1..];
      WindowInjective(FeedBit(c, x[0]), x[1..], y[1..]);
    } else {
      Powers();
      FirstDifference(c, x[0], y[0]);
      NoMergeBelow(FeedBit(c, x[0]), FeedBit(c, y[0]), x[1..], y[1..], 0x8000_0000, 31);
    }
  }

  /** The polynomial's top bit: the first differing bit sets bit 31 of the difference. */
  lemma FirstDifference(c: bv32, a: bool, b: bool)
    requires a != b
    ensures AtLeast(Xor(FeedBit(c, a), FeedBit(c, b)), 0x8000_0000)
  {
    hide Xor, BitStep, AtLeast;
    var u: bv32 := if a then 1 else 0;
    var v: bv32 := if b then 1 else 0;
    BitStepXor(Xor(c, u), Xor(c, v));
    SameBase(c, u, v);
    OnlyTheBit();
  }

  lemma SameBase(c: bv32, u: bv32, v: bv32)
    ensures Xor(Xor(c, u), Xor(c, v)) == Xor(u, v)
  {
    hide Xor;
    XorComm(c, u);
    XorAssoc(u, c, Xor(c, v));
    XorAssoc(c, c, v);
    XorCancel(c, c);
    XorComm(c, Xor(c, v));
    XorComm(c, v);
    XorCancel(v, c);
  }

  lemma OnlyTheBit()
    ensures AtLeast(BitStep(Xor(0, 1)), 0x8000_0000) && AtLeast(BitStep(Xor(1, 0)), 0x8000_0000)
  {
  }

  lemma {:induction false} NoMergeBelow(c: bv32, d: bv32, x: seq<bool>, y: seq<bool>, p: bv32, n: nat)
    requires |x| == |y| <= n && IsPower(p, n) && AtLeast(Xor(c, d), p)
    ensures FeedBits(c, x) != FeedBits(d, y)
    decreases n
  {
    if |x| == n {
      NoMerge(c, d, x, y, p, n);
    } else {
      HalfIsLess(Xor(c, d), p);
      hide LowBit, Half, Xor, FeedBit, AtLeast;
      NoMergeBelow(c, d, x, y, Half(p), n - 1);
    }
  }

  lemma HalfIsLess(x: bv32, p: bv32)
    requires AtLeast(x, p)
    ensures AtLeast(x, Half(p))
  {
  }

  /**
   Any burst is detected: two messages of equal length whose bits agree except within some
   stretch of 32 consecutive bits, byte-aligned or not, have different checksums unless
   they are the same message.
   */
  lemma BurstDetected(prefix: seq<bool>, x: seq<bool>, y: seq<bool>, suffix: seq<bool>, m: seq<bv8>, n: seq<bv8>)
    requires |x| == |y| <= 32 && x != y
    requires Bits(m) == prefix + x + suffix && Bits(n) == prefix + y + suffix
    ensures Checksum(m) != Checksum(n)
  {
    var c := FeedBits(0xFFFF_FFFF, prefix);
    hide FeedBits, Bits;
    FeedBitsConcat(0xFFFF_FFFF, prefix, x);
    FeedBitsConcat(0xFFFF_FFFF, prefix, y);
    FeedBitsConcat(0xFFFF_FFFF, prefix + x, suffix);
    FeedBitsConcat(0xFFFF_FFFF, prefix + y, suffix);
    WindowInjective(c, x, y);
    FeedBitsInjective(FeedBits(c, x), FeedBits(c, y), suffix);
  }

  /** In particular, messages that differ only inside four consecutive bytes. */
  lemma FourByteBurstDetected(prefix: seq<bv8>, a: seq<bv8>, b: seq<bv8>, suffix: seq<bv8>)
    requires |a| == |b| <= 4 && a != b
    ensures Checksum(prefix + a + suffix) != Checksum(prefix + b + suffix)
  {
    BitsConcat(prefix, a);
    BitsConcat(prefix, b);
    BitsConcat(prefix + a, suffix);
    BitsConcat(prefix + b, suffix);
    if Bits(a) == Bits(b) { BitsInjective(a, b); }
    BurstDetected(Bits(prefix), Bits(a), Bits(b), Bits(suffix), prefix + a + suffix, prefix + b + suffix);
  }

  lemma {:induction false} BitsConcat(x: seq<bv8>, y: seq<bv8>)
    ensures Bits(x + y) == Bits(x) + Bits(y)
  {
    hide LowBits;
    if x == [] {
      assert x + y == y;
    } else {
      assert (x + y)[1..] == x[1..] + y;
      BitsConcat(x[1..], y);
    }
  }

  lemma {:induction false} BitsInjective(x: seq<bv8>, y: seq<bv8>)
    requires |x| == |y| && Bits(x) == Bits(y)
    ensures x == y
  {
    hide LowBits;
    if x != [] {
      assert Bits(x)[..8] == LowBits(x[0] as bv32, 8) == LowBits(y[0] as bv32, 8);
      assert Bits(x)[8..] == Bits(x[1..]) == Bits(y[1..]);
      ByteFromBits(x[0], y[0]);
      BitsInjective(x[1..], y[1..]);
      assert x == [x[0]] + x[1..] && y == [y[0]] + y[1..];
    }
  }

  /** Equal bits come from equal bytes: a zero register ends up the byte, eight steps on. */
  lemma ByteFromBits(x: bv8, y: bv8)
    requires LowBits(x as bv32, 8) == LowBits(y as bv32, 8)
    ensures x == y
  {
    hide FeedBits, LowBits, Shift;
    ByteStepIsEightBits(0, x);
    ByteStepIsEightBits(0, y);
    XorComm(0, x as bv32);
    XorComm(0, y as bv32);
    XorZero(x as bv32);
    XorZero(y as bv32);
    ShiftInjective(x as bv32, y as bv32, 8);
  }

  lemma {:induction false} ShiftInjective(x: bv32, y: bv32, n: nat)
    requires Shift(x, n) == Shift(y, n)
    ensures x == y
    decreases n
  {
    if n > 0 {
      hide BitStep;
      ShiftInjective(BitStep(x), BitStep(y), n - 1);
      BitStepInjective(x, y);
    }
  }

  // ---- The check value ----

  lemma CheckSteps()
    ensures ByteStep(0xFFFFFFFF, 0x31) == 0x6F0A661C
    ensures ByteStep(0x6F0A661C, 0x32) == 0x8CAA3B9F
    ensures ByteStep(0x8CAA3B9F, 0x33) == 0xEF84D04D
    ensures ByteStep(0xEF84D04D, 0x34) == 0x09C50B11
    ensures ByteStep(0x09C50B11, 0x35) == 0xE72EDCCA
    ensures ByteStep(0xE72EDCCA, 0x36) == 0xBECA8E79
    ensures ByteStep(0xBECA8E79, 0x37) == 0xEDBD6815
    ensures ByteStep(0xEDBD6815, 0x38) == 0x9F787F65
    ensures ByteStep(0x9F787F65, 0x39) == 0x1CF96D7C
  {
  }

  /** The published check value of CRC-32C, on the ASCII digits "123456789". */
  lemma CheckValue()
    ensures Checksum([0x31, 0x32, 0x33, 0x34, 0x35, 0x36, 0x37, 0x38, 0x39]) == 0xE3069283
  {
    var data: seq<bv8> := [0x31, 0x32, 0x33, 0x34, 0x35, 0x36, 0x37, 0x38, 0x39];
    hide ByteStep, Checksum;
    ChecksumByBytes(data);
    CheckSteps();
    assert data[0..] == data;
    FeedFrom(0xFFFFFFFF, data, 0);
    FeedFrom(0x6F0A661C, data, 1);
    FeedFrom(0x8CAA3B9F, data, 2);
    FeedFrom(0xEF84D04D, data, 3);
    FeedFrom(0x09C50B11, data, 4);
    FeedFrom(0xE72EDCCA, data, 5);
    FeedFrom(0xBECA8E79, data, 6);
    FeedFrom(0xEDBD6815, data, 7);
    FeedFrom(0x9F787F65, data, 8);
  }

  lemma FeedFrom(crc: bv32, data: seq<bv8>, i: nat)
    requires i < |data|
    ensures Feed(crc, data[i..]) == Feed(ByteStep(crc, data[i]), data[i + 1..])
  {
    hide ByteStep;
    assert data[i..][1..] == data[i + 1..];
  }
}
