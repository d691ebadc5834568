/** The table-driven and hardware forms of CRC-32C, each proved equal to the bit-at-a-time definition. */
module Crc32cTables {
  import opened Crc32c

  function LowByte(x: bv32): bv8 { (x & 0xFF) as bv8 }

  function IndexOf(b: bv8): (i: nat)
    ensures i < 256 && i as bv8 == b
  {
    b as int
  }

  /** A table is indexed by the low byte of a word. */
  function Index(x: bv32): (i: nat)
    ensures i < 256 && i as bv8 == LowByte(x)
  {
    IndexOf(LowByte(x))
  }

  // ---- What a table entry is: a byte followed by zero bytes ----

  function ZeroFed(b: bv8, bytes: nat): bv32 {
    Shift(b as bv32, 8 * bytes)
  }

  function Quarter(x: bv32): bv32 { x >> 2 }

  predicate TwoZeros(x: bv32) { x & 3 == 0 }

  lemma EvenSteps(x: bv32)
    requires TwoZeros(x)
    ensures Shift(x, 2) == Quarter(x)
  {
    assert !LowBit(x) && !LowBit(Half(x)) && Half(Half(x)) == Quarter(x);
    hide Quarter, TwoZeros, Half, LowBit, BitStep;
    BitStepCases(x);
    BitStepCases(Half(x));
    assert Shift(x, 2) == BitStep(BitStep(x));
  }

  lemma ZeroByte(x: bv32)
    requires x & 0xFF == 0
    ensures TwoZeros(x) && TwoZeros(Quarter(x))
    ensures TwoZeros(Quarter(Quarter(x))) && TwoZeros(Quarter(Quarter(Quarter(x))))
    ensures Quarter(Quarter(Quarter(Quarter(x)))) == x >> 8
  {
  }

  /** With a zero low byte, eight steps are a plain shift. */
  lemma EvenByte(x: bv32)
    requires x & 0xFF == 0
    ensures Shift(x, 8) == x >> 8
  {
    ZeroByte(x);
    hide Quarter, TwoZeros, Shift;
    var q := Quarter(x);
    EvenSteps(x);
    EvenSteps(q);
    EvenSteps(Quarter(q));
    EvenSteps(Quarter(Quarter(q)));
    ShiftConcat(x, 2, 6);
    ShiftConcat(q, 2, 4);
    ShiftConcat(Quarter(q), 2, 2);
  }

  function HighBytes(x: bv32): bv32 { x >> 8 }

  lemma SplitLowByte(x: bv32)
    ensures x == Xor(LowByte(x) as bv32, x & 0xFFFF_FF00)
    ensures (x & 0xFFFF_FF00) & 0xFF == 0
    ensures (x & 0xFFFF_FF00) >> 8 == HighBytes(x)
  {
  }

  /** Eight steps shift the low byte out and mix in what that byte alone leaves behind. */
  lemma ShiftByte(x: bv32)
    ensures Shift(x, 8) == Xor(HighBytes(x), ZeroFed(LowByte(x), 1))
  {
    SplitLowByte(x);
    var high := x & 0xFFFF_FF00;
    EvenByte(high);
    hide Xor, HighBytes, LowByte, Shift;
    ShiftXor(LowByte(x) as bv32, high, 8);
    XorComm(Shift(LowByte(x) as bv32, 8), HighBytes(x));
  }

  lemma ZeroFedShift(b: bv8, m: nat, n: nat)
    ensures Shift(ZeroFed(b, m), 8 * n) == ZeroFed(b, m + n)
  {
    ShiftConcat(b as bv32, 8 * m, 8 * n);
  }

  /** One table lookup per byte: the update of the byte tail. */
  lemma LookupStep(crc: bv32, b: bv8)
    ensures ByteStep(crc, b) == Xor(HighBytes(crc), ZeroFed(LowByte(Xor(crc, b as bv32)), 1))
  {
    var x := Xor(crc, b as bv32);
    ShiftByte(x);
    assert HighBytes(x) == HighBytes(crc);
  }

  // ---- Eight bytes at once ----

  function Word(b0: bv8, b1: bv8, b2: bv8, b3: bv8): bv32 {
    (b0 as bv32) | ((b1 as bv32) << 8) | ((b2 as bv32) << 16) | ((b3 as bv32) << 24)
  }

  /** A word's bytes can wait in the register: feed the low one now, the rest later. */
  lemma AbsorbByte(crc: bv32, w: bv32)
    ensures Shift(Xor(crc, w), 8) == Xor(ByteStep(crc, LowByte(w)), HighBytes(w))
  {
    SplitLowByte(w);
    var low, high := LowByte(w) as bv32, w & 0xFFFF_FF00;
    EvenByte(high);
    hide Xor, HighBytes, LowByte, Shift;
    XorAssoc(crc, low, high);
    ShiftXor(Xor(crc, low), high, 8);
  }

  lemma WordBytes(b0: bv8, b1: bv8, b2: bv8, b3: bv8)
    ensures var w := Word(b0, b1, b2, b3);
      && LowByte(w) == b0 && LowByte(HighBytes(w)) == b1 && LowByte(HighBytes(HighBytes(w))) == b2
      && LowByte(HighBytes(HighBytes(HighBytes(w)))) == b3
      && HighBytes(HighBytes(HighBytes(HighBytes(w)))) == 0
  {
  }

  /** Feeding four bytes is mixing in their little-endian word and stepping 32 times. */
  lemma FeedWord(crc: bv32, b0: bv8, b1: bv8, b2: bv8, b3: bv8)
    ensures Feed(crc, [b0, b1, b2, b3]) == Shift(Xor(crc, Word(b0, b1, b2, b3)), 32)
  {
    var w0 := Word(b0, b1, b2, b3);
    WordBytes(b0, b1, b2, b3);
    hide Xor, HighBytes, LowByte, Shift, Word, ByteStep;
    var w1 := HighBytes(w0);
    var w2 := HighBytes(w1);
    var w3 := HighBytes(w2);
    var c1 := ByteStep(crc, b0);
    var c2 := ByteStep(c1, b1);
    var c3 := ByteStep(c2, b2);
    var c4 := ByteStep(c3, b3);
    AbsorbByte(crc, w0);
    AbsorbByte(c1, w1);
    AbsorbByte(c2, w2);
    AbsorbByte(c3, w3);
    XorZero(c4);
    ShiftConcat(Xor(crc, w0), 8, 24);
    ShiftConcat(Xor(c1, w1), 8, 16);
    ShiftConcat(Xor(c2, w2), 8, 8);
    var data := [b0, b1, b2, b3];
    assert data[1..] == [b1, b2, b3] && [b1, b2, b3][1..] == [b2, b3] && [b2, b3][1..] == [b3] && [b3][1..] == [];
    assert Feed(c3, [b3]) == c4;
    assert Feed(c1, [b1, b2, b3]) == Feed(c2, [b2, b3]) == c4;
  }

  /** Four lookups: each byte of a word contributes what it alone leaves after its own delay. */
  lemma SplitWord(t: bv32, n: nat)
    ensures Shift(t, 8 * (4 + n)) ==
      Xor(Xor(Xor(ZeroFed(LowByte(t), 4 + n), ZeroFed(LowByte(HighBytes(t)), 3 + n)),
              ZeroFed(LowByte(HighBytes(HighBytes(t))), 2 + n)),
          ZeroFed(LowByte(HighBytes(HighBytes(HighBytes(t)))), 1 + n))
  {
    var t1 := HighBytes(t);
    var t2 := HighBytes(t1);
    var t3 := HighBytes(t2);
    SplitOff(t, 3 + n);
    SplitOff(t1, 2 + n);
    SplitOff(t2, 1 + n);
    SplitOff(t3, n);
    assert HighBytes(t3) == 0;
    ShiftOfZero(8 * n);
    hide Xor, HighBytes, LowByte, Shift, ZeroFed;
    var z0, z1 := ZeroFed(LowByte(t), 4 + n), ZeroFed(LowByte(t1), 3 + n);
    var z2, z3 := ZeroFed(LowByte(t2), 2 + n), ZeroFed(LowByte(t3), 1 + n);
    XorZero(z3);
    XorAssoc(z0, z1, Xor(z2, z3));
    XorAssoc(Xor(z0, z1), z2, z3);
  }

  lemma SplitOff(t: bv32, n: nat)
    ensures Shift(t, 8 * (1 + n)) == Xor(ZeroFed(LowByte(t), 1 + n), Shift(HighBytes(t), 8 * n))
  {
    hide Xor, HighBytes, LowByte, Shift;
    ShiftByte(t);
    ShiftConcat(t, 8, 8 * n);
    ShiftXor(HighBytes(t), ZeroFed(LowByte(t), 1), 8 * n);
    ZeroFedShift(LowByte(t), 1, n);
    XorComm(Shift(HighBytes(t), 8 * n), ZeroFed(LowByte(t), 1 + n));
  }

  lemma {:induction false} ShiftOfZero(n: nat)
    ensures Shift(0, n) == 0
  {
    if n > 0 {
      assert BitStep(0) == 0;
      ShiftOfZero(n - 1);
    }
  }

  function Byte1(t: bv32): bv8 { LowByte(t >> 8) }

  function Byte2(t: bv32): bv8 { LowByte(t >> 16) }

  function Byte3(t: bv32): bv8 { (t >> 24) as bv8 }

  lemma WordShifts(t: bv32)
    ensures Byte1(t) == LowByte(HighBytes(t))
    ensures Byte2(t) == LowByte(HighBytes(HighBytes(t)))
    ensures Byte3(t) == LowByte(HighBytes(HighBytes(HighBytes(t))))
  {
  }

  /** The eight lookups of one slice-by-8 round, for the two words mixed with the register. */
  function SliceXor(t: bv32, u: bv32): bv32 {
    Xor(Xor(Xor(Xor(Xor(Xor(Xor(
      ZeroFed(LowByte(t), 8), ZeroFed(Byte1(t), 7)), ZeroFed(Byte2(t), 6)), ZeroFed(Byte3(t), 5)),
                    ZeroFed(LowByte(u), 4)), ZeroFed(Byte1(u), 3)), ZeroFed(Byte2(u), 2)), ZeroFed(Byte3(u), 1))
  }

  lemma FiveWayXor(x: bv32, e: bv32, f: bv32, g: bv32, h: bv32)
    ensures Xor(Xor(Xor(Xor(x, e), f), g), h) == Xor(x, Xor(Xor(Xor(e, f), g), h))
  {
    hide Xor;
    XorAssoc(x, e, f);
    XorAssoc(x, Xor(e, f), g);
    XorAssoc(x, Xor(Xor(e, f), g), h);
  }

  lemma SliceXorSplits(t: bv32, u: bv32)
    ensures SliceXor(t, u) == Xor(Shift(t, 64), Shift(u, 32))
  {
    hide Xor, HighBytes, LowByte, Byte1, Byte2, Byte3, Shift, ZeroFed;
    SplitWord(t, 4);
    SplitWord(u, 0);
    WordShifts(t);
    WordShifts(u);
    FiveWayXor(Shift(t, 64), ZeroFed(LowByte(u), 4), ZeroFed(Byte1(u), 3), ZeroFed(Byte2(u), 2), ZeroFed(Byte3(u), 1));
  }

  /** One slice-by-8 round feeds eight bytes. */
  lemma SliceRound(crc: bv32, b: seq<bv8>)
    requires |b| == 8
    ensures Feed(crc, b) == SliceXor(Xor(crc, Word(b[0], b[1], b[2], b[3])), Word(b[4], b[5], b[6], b[7]))
  {
    hide Xor, SliceXor, Shift, Word, Feed;
    var t, u := Xor(crc, Word(b[0], b[1], b[2], b[3])), Word(b[4], b[5], b[6], b[7]);
    assert b == [b[0], b[1], b[2], b[3]] + [b[4], b[5], b[6], b[7]];
    FeedConcat(crc, [b[0], b[1], b[2], b[3]], [b[4], b[5], b[6], b[7]]);
    FeedWord(crc, b[0], b[1], b[2], b[3]);
    FeedWord(Shift(t, 32), b[4], b[5], b[6], b[7]);
    ShiftXor(Shift(t, 32), u, 32);
    ShiftConcat(t, 32, 32);
    SliceXorSplits(t, u);
  }

  lemma ByteAsWord(i: nat)
    requires i < 256
    ensures i as bv32 == (i as bv8) as bv32
  {
  }

  lemma FirstEntry(i: nat)
    requires i < 256
    ensures Shift(i as bv32, 8) == ZeroFed(i as bv8, 1)
  {
    hide Shift;
    ByteAsWord(i);
  }

  // ---- The loops ----

  class Crc32Tables {
    const table: array2<bv32>

    ghost predicate Correct()
      reads table
    {
      && table.Length0 == 8 && table.Length1 == 256
      && forall k, i :: 0 <= k < 8 && 0 <= i < 256 ==> table[k, i] == ZeroFed(i as bv8, k + 1)
    }

    /** Entry `i` of table `k` is what a zero register holds after byte `i` and then `k` zero bytes. */
    constructor ()
      ensures Correct() && fresh(table)
    {
      table := new bv32[8, 256];
      new;
      FillFirst();
      FillSlices();
    }

    method FillFirst()
      requires table.Length0 == 8 && table.Length1 == 256
      modifies table
      ensures forall j :: 0 <= j < 256 ==> table[0, j] == ZeroFed(j as bv8, 1)
    {
      hide Shift, ZeroFed;
      var i := 0;
      while i < 256
        invariant 0 <= i <= 256
        invariant forall j :: 0 <= j < i ==> table[0, j] == ZeroFed(j as bv8, 1)
      {
        var crc := EightSteps(i as bv32);
        FirstEntry(i);
        table[0, i] := crc;
        i := i + 1;
      }
    }

    static method EightSteps(i: bv32) returns (crc: bv32)
      ensures crc == Shift(i, 8)
    {
      crc := i;
      var j := 0;
      while j < 8
        invariant 0 <= j <= 8
        invariant Shift(crc, 8 - j) == Shift(i, 8)
      {
        crc := (crc >> 1) ^ (if crc & 1 == 1 then 0x82F63B78 else 0);
        j := j + 1;
      }
    }

    method FillSlices()
      requires table.Length0 == 8 && table.Length1 == 256
      requires forall j :: 0 <= j < 256 ==> table[0, j] == ZeroFed(j as bv8, 1)
      modifies table
      ensures Correct()
    {
      hide ZeroFed, Xor, HighBytes, LowByte;
      var i := 0;
      while i < 256
        invariant 0 <= i <= 256
        invariant forall j :: 0 <= j < 256 ==> table[0, j] == ZeroFed(j as bv8, 1)
        invariant forall k, j :: 0 <= k < 8 && 0 <= j < i ==> table[k, j] == ZeroFed(j as bv8, k + 1)
      {
        var slice := 1;
        while slice < 8
          invariant 1 <= slice <= 8
          invariant forall j :: 0 <= j < 256 ==> table[0, j] == ZeroFed(j as bv8, 1)
          invariant forall k, j :: 0 <= k < 8 && 0 <= j < i ==> table[k, j] == ZeroFed(j as bv8, k + 1)
          invariant forall k :: 0 <= k < slice ==> table[k, i] == ZeroFed(i as bv8, k + 1)
        {
          var prev := table[slice - 1, i];
          NextEntry(i as bv8, slice);
          table[slice, i] := Xor(HighBytes(prev), table[0, Index(prev)]);
          slice := slice + 1;
        }
        i := i + 1;
      }
    }

    method LookupEight(term1: bv32, term2: bv32) returns (r: bv32)
      requires Correct()
      ensures r == SliceXor(term1, term2)
    {
      hide ZeroFed, Xor, LowByte, Byte1, Byte2, Byte3;
      r := Xor(Xor(Xor(Xor(Xor(Xor(Xor(
        table[7, Index(term1)], table[6, IndexOf(Byte1(term1))]),
        table[5, IndexOf(Byte2(term1))]), table[4, IndexOf(Byte3(term1))]),
        table[3, Index(term2)]), table[2, IndexOf(Byte1(term2))]),
        table[1, IndexOf(Byte2(term2))]), table[0, IndexOf(Byte3(term2))]);
    }

    /** The slice-by-8 loop and its byte tail compute CRC-32C of every byte string. */
    method SoftwareSlice8(data: seq<bv8>) returns (r: bv32)
      requires Correct()
      ensures r == Checksum(data)
    {
      hide ZeroFed, Xor, HighBytes, LowByte, SliceXor, Feed, Word, Checksum;
      var crc: bv32 := 0xFFFF_FFFF;
      var p := 0;
      var len := |data|;
      while len >= 8
        invariant 0 <= p <= |data| && len == |data| - p
        invariant Feed(crc, data[p..]) == Feed(0xFFFF_FFFF, data)
      {
        var term1 := Xor(crc, Word(data[p], data[p + 1], data[p + 2], data[p + 3]));
        var term2 := Word(data[p + 4], data[p + 5], data[p + 6], data[p + 7]);
        var next := LookupEight(term1, term2);
        SliceRound(crc, data[p..p + 8]);
        FeedConcat(crc, data[p..p + 8], data[p + 8..]);
        assert data[p..] == data[p..p + 8] + data[p + 8..];
        crc := next;
        p := p + 8;
        len := len - 8;
      }
      while len > 0
        invariant 0 <= p <= |data| && len == |data| - p
        invariant Feed(crc, data[p..]) == Feed(0xFFFF_FFFF, data)
      {
        FeedFirst(crc, data[p..]);
        LookupStep(crc, data[p]);
        crc := Xor(HighBytes(crc), table[0, Index(Xor(crc, data[p] as bv32))]);
        p := p + 1;
        len := len - 1;
      }
      assert data[p..] == [];
      FeedNothing(crc);
      ChecksumByBytes(data);
      return !crc;
    }
  }

  lemma FeedFirst(crc: bv32, data: seq<bv8>)
    requires data != []
    ensures Feed(crc, data) == Feed(ByteStep(crc, data[0]), data[1..])
  {
  }

  lemma FeedNothing(crc: bv32)
    ensures Feed(crc, []) == crc
  {
  }

  lemma NextEntry(b: bv8, k: nat)
    requires k > 0
    ensures ZeroFed(b, k + 1) == Xor(HighBytes(ZeroFed(b, k)), ZeroFed(LowByte(ZeroFed(b, k)), 1))
  {
    hide Xor, HighBytes, LowByte, Shift;
    ShiftByte(ZeroFed(b, k));
    ZeroFedShift(b, k, 1);
  }

  // ---- The hardware path ----

  /** The CRC instruction on a 64-bit operand: eight byte steps, low byte first. */
  function Crc32U64(crc: bv32, chunk: seq<bv8>): bv32
    requires |chunk| == 8
  {
    var c1 := ByteStep(ByteStep(crc, chunk[0]), chunk[1]);
    var c2 := ByteStep(ByteStep(c1, chunk[2]), chunk[3]);
    var c3 := ByteStep(ByteStep(c2, chunk[4]), chunk[5]);
    ByteStep(ByteStep(c3, chunk[6]), chunk[7])
  }

  lemma Crc32U64Feeds(crc: bv32, chunk: seq<bv8>)
    requires |chunk| == 8
    ensures Crc32U64(crc, chunk) == Feed(crc, chunk)
  {
    hide ByteStep;
    FeedPair(crc, chunk);
    var c1 := ByteStep(ByteStep(crc, chunk[0]), chunk[1]);
    var c2 := ByteStep(ByteStep(c1, chunk[2]), chunk[3]);
    var c3 := ByteStep(ByteStep(c2, chunk[4]), chunk[5]);
    FeedPair(c1, chunk[2..]);
    FeedPair(c2, chunk[4..]);
    assert chunk[2..][2..] == chunk[4..] && chunk[4..][2..] == chunk[6..];
    FeedPair(c3, chunk[6..]);
    assert chunk[6..][2..] == [];
  }

  lemma FeedPair(crc: bv32, data: seq<bv8>)
    requires |data| >= 2
    ensures Feed(crc, data) == Feed(ByteStep(ByteStep(crc, data[0]), data[1]), data[2..])
  {
    hide ByteStep;
    assert data[1..][1..] == data[2..];
  }

  /** The hardware loop computes the same checksum. */
  method HardwareCrc(data: seq<bv8>) returns (r: bv32)
    ensures r == Checksum(data)
  {
    hide ByteStep, Crc32U64, Feed, Checksum;
    var crc: bv32 := 0xFFFF_FFFF;
    var p := 0;
    var len := |data|;
    while len >= 8
      invariant 0 <= p <= |data| && len == |data| - p
      invariant Feed(crc, data[p..]) == Feed(0xFFFF_FFFF, data)
    {
      Crc32U64Feeds(crc, data[p..p + 8]);
      FeedConcat(crc, data[p..p + 8], data[p + 8..]);
      assert data[p..] == data[p..p + 8] + data[p + 8..];
      crc := Crc32U64(crc, data[p..p + 8]);
      p := p + 8;
      len := len - 8;
    }
    while len > 0
      invariant 0 <= p <= |data| && len == |data| - p
      invariant Feed(crc, data[p..]) == Feed(0xFFFF_FFFF, data)
    {
      FeedFirst(crc, data[p..]);
      crc := ByteStep(crc, data[p]);
      p := p + 1;
      len := len - 1;
    }
    assert data[p..] == [];
    FeedNothing(crc);
    ChecksumByBytes(data);
    return !crc;
  }
}
