/** The 32-bit xxHash (XXH32 of the xxHash specification). */
module XxHash32 {
  import opened Integers
  import opened Words32
  import opened Folding

  const PRIME_1: u32 := 0x9E3779B1
  const PRIME_2: u32 := 0x85EBCA77
  const PRIME_3: u32 := 0xC2B2AE3D
  const PRIME_4: u32 := 0x27D4EB2F
  const PRIME_5: u32 := 0x165667B1

  // rotation powers
  const ROTL_1: u32 := 0x2
  const ROTL_7: u32 := 0x80
  const ROTL_11: u32 := 0x800
  const ROTL_12: u32 := 0x1000
  const ROTL_13: u32 := 0x2000
  const ROTL_17: u32 := 0x2_0000
  const ROTL_18: u32 := 0x4_0000

  // ---- The specification: four lanes, then the words left over, then the bytes, then the avalanche ----

  function Round(seed: u32, input: u32): u32 {
    Times(RotateLeft(Add(seed, Times(input, PRIME_2)), ROTL_13), PRIME_1)
  }

  function WordStep(h: u32, word: u32): u32 {
    Times(RotateLeft(Add(h, Times(word, PRIME_3)), ROTL_17), PRIME_4)
  }

  function ByteStep(h: u32, b: u8): u32 {
    Times(RotateLeft(Add(h, Times(b, PRIME_5)), ROTL_11), PRIME_1)
  }

  /** A little-endian unaligned read. */
  function Word(data: seq<u8>, p: nat): u32
    requires p + 4 <= |data|
  {
    var b0: int, b1: int, b2: int, b3: int := data[p], data[p + 1], data[p + 2], data[p + 3];
    b0 + 0x100 * b1 + 0x1_0000 * b2 + 0x100_0000 * b3
  }

  /** The words lane `j` sees: one from each whole 16-byte stripe. */
  function LaneWords(data: seq<u8>, j: nat): (w: seq<u32>)
    requires j < 4
    ensures |w| == |data| / 16
  {
    seq(|data| / 16, k requires 0 <= k < |data| / 16 => Word(data, 16 * k + 4 * j))
  }

  function LooseWords(data: seq<u8>): (w: seq<u32>)
    ensures |w| == |data| % 16 / 4
  {
    seq(|data| % 16 / 4, k requires 0 <= k < |data| % 16 / 4 => Word(data, |data| / 16 * 16 + 4 * k))
  }

  function LooseBytes(data: seq<u8>): seq<u8> {
    data[|data| / 4 * 4..]
  }

  function LaneStart(seed: u32, j: nat): u32 {
    match j
    case 0 => Add(Add(seed, PRIME_1), PRIME_2)
    case 1 => Add(seed, PRIME_2)
    case 2 => seed
    case _ => (seed - PRIME_1) % U32_LIMIT
  }

  function Lane(data: seq<u8>, seed: u32, j: nat): u32
    requires j < 4
  {
    Fold(Round, LaneStart(seed, j), LaneWords(data, j))
  }

  function MergeLanes(v1: u32, v2: u32, v3: u32, v4: u32): u32 {
    Add(Add(Add(RotateLeft(v1, ROTL_1), RotateLeft(v2, ROTL_7)), RotateLeft(v3, ROTL_12)), RotateLeft(v4, ROTL_18))
  }

  function Avalanche(h: u32): u32 {
    var h1 := Times(XorShift(h, 15), PRIME_2);
    var h2 := Times(XorShift(h1, 13), PRIME_3);
    XorShift(h2, 16)
  }

  function Accumulated(data: seq<u8>, seed: u32): u32 {
    if |data| >= 16 then MergeLanes(Lane(data, seed, 0), Lane(data, seed, 1), Lane(data, seed, 2), Lane(data, seed, 3))
    else Add(seed, PRIME_5)
  }

  function Hash(data: seq<u8>, seed: u32): u32 {
    var h := Add(Accumulated(data, seed), |data| % U32_LIMIT);
    Avalanche(Fold(ByteStep, Fold(WordStep, h, LooseWords(data)), LooseBytes(data)))
  }

  // ---- The code ----

  /** `hash_xxhash`. */
  method HashXxhash(data: seq<u8>, seed: u32) returns (h32: u32)
    ensures h32 == Hash(data, seed)
  {
    var p := 0;
    if |data| >= 16 {
      h32, p := HashStripes(data, seed);
    } else {
      h32 := Add(seed, PRIME_5);
    }
    h32 := Add(h32, |data| % U32_LIMIT);
    h32, p := HashWords(data, h32, p);
    h32 := HashBytes(data, h32, p);

    h32 := XorShift(h32, 15);
    h32 := Times(h32, PRIME_2);
    h32 := XorShift(h32, 13);
    h32 := Times(h32, PRIME_3);
    h32 := XorShift(h32, 16);
  }

  /** `xxh32_round`. */
  method Xxh32Round(seed: u32, input: u32) returns (s: u32)
    ensures s == Round(seed, input)
  {
    s := Add(seed, Times(input, PRIME_2));
    s := RotateLeft(s, ROTL_13);
    s := Times(s, PRIME_1);
  }

  /** The 4-byte loop. */
  method HashWords(data: seq<u8>, start: u32, first: nat) returns (h32: u32, p: nat)
    requires first == |data| / 16 * 16
    ensures h32 == Fold(WordStep, start, LooseWords(data)) && p == |data| / 4 * 4
  {
    hide Times, RotateLeft, Add, Word;
    h32, p := start, first;
    ghost var words, k := LooseWords(data), 0;
    WordTest(|data|, 0);
    while p + 4 <= |data|
      invariant 0 <= k <= |words| && p == first + 4 * k
      invariant p + 4 <= |data| <==> k < |words|
      invariant h32 == Fold(WordStep, start, words[..k])
      decreases |words| - k
    {
      assert words[..k + 1][..k] == words[..k] && words[k] == Word(data, p);
      var t := Times(Word(data, p), PRIME_3);
      h32 := Add(h32, t);
      h32 := Times(RotateLeft(h32, ROTL_17), PRIME_4);
      p := p + 4;
      k := k + 1;
      WordTest(|data|, k);
    }
    assert words[..k] == words;
    Alignment(|data|);
  }

  lemma WordTest(n: nat, k: nat)
    ensures n / 16 * 16 + 4 * k + 4 <= n <==> k < n % 16 / 4
  {
  }

  /** The byte loop. */
  method HashBytes(data: seq<u8>, start: u32, first: nat) returns (h32: u32)
    requires first == |data| / 4 * 4
    ensures h32 == Fold(ByteStep, start, LooseBytes(data))
  {
    hide Times, RotateLeft, Add;
    h32 := start;
    var p := first;
    ghost var bytes := LooseBytes(data);
    while p < |data|
      invariant first <= p <= |data|
      invariant h32 == Fold(ByteStep, start, bytes[..p - first])
    {
      assert bytes[..p - first + 1][..p - first] == bytes[..p - first];
      h32 := Add(h32, Times(data[p], PRIME_5));
      p := p + 1;
      h32 := Times(RotateLeft(h32, ROTL_11), PRIME_1);
    }
    assert bytes[..p - first] == bytes;
  }

  /** The stripe loop, which runs its body before its test. */
  method HashStripes(data: seq<u8>, seed: u32) returns (h32: u32, p: nat)
    requires |data| >= 16
    ensures h32 == Accumulated(data, seed) && p == |data| / 16 * 16
  {
    hide Times, RotateLeft, Add, Word, Round, LaneWords;
    p := 0;
    var limit := |data| - 16;
    var v1 := Add(Add(seed, PRIME_1), PRIME_2);
    var v2 := Add(seed, PRIME_2);
    var v3 := seed;
    var v4: u32 := (seed - PRIME_1) % U32_LIMIT;
    ghost var k, n := 0, |data| / 16;
    StripeTest(|data|, 0);
    var again := true;
    while again
      invariant 0 <= k <= n && p == 16 * k
      invariant again <==> k < n
      invariant InLanes(data, seed, k, v1, v2, v3, v4)
      decreases n - k
    {
      NextInLanes(data, seed, k, v1, v2, v3, v4);
      v1 := Xxh32Round(v1, Word(data, p));
      p := p + 4;
      v2 := Xxh32Round(v2, Word(data, p));
      p := p + 4;
      v3 := Xxh32Round(v3, Word(data, p));
      p := p + 4;
      v4 := Xxh32Round(v4, Word(data, p));
      p := p + 4;
      k := k + 1;
      StripeTest(|data|, k);
      again := p <= limit;
    }
    AllStripes(data, seed, v1, v2, v3, v4);
    h32 := Add(RotateLeft(v1, ROTL_1), RotateLeft(v2, ROTL_7));
    h32 := Add(Add(h32, RotateLeft(v3, ROTL_12)), RotateLeft(v4, ROTL_18));
  }

  lemma StripeTest(length: nat, k: nat)
    ensures k < length / 16 <==> 16 * k <= length - 16
  {
  }

  /** The four accumulators after `k` stripes. */
  ghost predicate InLanes(data: seq<u8>, seed: u32, k: nat, v1: u32, v2: u32, v3: u32, v4: u32)
    requires k <= |data| / 16
  {
    && v1 == Fold(Round, LaneStart(seed, 0), LaneWords(data, 0)[..k])
    && v2 == Fold(Round, LaneStart(seed, 1), LaneWords(data, 1)[..k])
    && v3 == Fold(Round, LaneStart(seed, 2), LaneWords(data, 2)[..k])
    && v4 == Fold(Round, LaneStart(seed, 3), LaneWords(data, 3)[..k])
  }

  lemma NextInLanes(data: seq<u8>, seed: u32, k: nat, v1: u32, v2: u32, v3: u32, v4: u32)
    requires k < |data| / 16 && InLanes(data, seed, k, v1, v2, v3, v4)
    ensures 16 * k + 16 <= |data|
    ensures InLanes(data, seed, k + 1, Round(v1, Word(data, 16 * k)), Round(v2, Word(data, 16 * k + 4)),
                    Round(v3, Word(data, 16 * k + 8)), Round(v4, Word(data, 16 * k + 12)))
  {
    hide Round, Word, LaneStart, LaneWords;
    NextInLane(data, seed, 0, k);
    NextInLane(data, seed, 1, k);
    NextInLane(data, seed, 2, k);
    NextInLane(data, seed, 3, k);
  }

  lemma AllStripes(data: seq<u8>, seed: u32, v1: u32, v2: u32, v3: u32, v4: u32)
    requires InLanes(data, seed, |data| / 16, v1, v2, v3, v4) && |data| >= 16
    ensures Accumulated(data, seed) == MergeLanes(v1, v2, v3, v4)
  {
    hide Round, MergeLanes, LaneStart, LaneWords;
    var n := |data| / 16;
    assert LaneWords(data, 0)[..n] == LaneWords(data, 0) && LaneWords(data, 1)[..n] == LaneWords(data, 1);
    assert LaneWords(data, 2)[..n] == LaneWords(data, 2) && LaneWords(data, 3)[..n] == LaneWords(data, 3);
  }

  lemma NextInLane(data: seq<u8>, seed: u32, j: nat, k: nat)
    requires j < 4 && k < |data| / 16
    ensures 16 * k + 4 * j + 4 <= |data|
    ensures Fold(Round, LaneStart(seed, j), LaneWords(data, j)[..k + 1]) ==
      Round(Fold(Round, LaneStart(seed, j), LaneWords(data, j)[..k]), Word(data, 16 * k + 4 * j))
  {
    hide Round, Word, LaneStart;
    assert LaneWords(data, j)[..k + 1][..k] == LaneWords(data, j)[..k];
  }

  /** Where the stripes and the whole words of `n` bytes end. */
  lemma Alignment(n: nat)
    ensures n / 16 * 16 == 4 * (n / 16 * 4)
    ensures n / 4 * 4 == n / 16 * 16 + 4 * (n % 16 / 4)
    ensures n / 4 * 4 <= n < n / 4 * 4 + 4
  {
  }

  // ---- No step loses anything ----

  lemma RoundApart(s: u32, t: u32, a: u32, b: u32)
    requires Round(s, a) == Round(t, b)
    ensures s == t <==> a == b
  {
    hide Times, RotateLeft, Add;
    var x, y := Add(s, Times(a, PRIME_2)), Add(t, Times(b, PRIME_2));
    TimesApart(RotateLeft(x, ROTL_13), RotateLeft(y, ROTL_13), PRIME_1, 0x0e8b2f51);
    RotateApart(x, y, ROTL_13);
    SumApart(s, t, Times(a, PRIME_2), Times(b, PRIME_2));
    if Times(a, PRIME_2) == Times(b, PRIME_2) { TimesApart(a, b, PRIME_2, 0xb6c92f47); }
  }

  lemma WordStepApart(s: u32, t: u32, a: u32, b: u32)
    requires WordStep(s, a) == WordStep(t, b)
    ensures s == t <==> a == b
  {
    hide Times, RotateLeft, Add;
    var x, y := Add(s, Times(a, PRIME_3)), Add(t, Times(b, PRIME_3));
    TimesApart(RotateLeft(x, ROTL_17), RotateLeft(y, ROTL_17), PRIME_4, 0xa0fe3bcf);
    RotateApart(x, y, ROTL_17);
    SumApart(s, t, Times(a, PRIME_3), Times(b, PRIME_3));
    if Times(a, PRIME_3) == Times(b, PRIME_3) { TimesApart(a, b, PRIME_3, 0xa89ed915); }
  }

  lemma ByteStepApart(s: u32, t: u32, a: u8, b: u8)
    requires ByteStep(s, a) == ByteStep(t, b)
    ensures s == t <==> a == b
  {
    hide Times, RotateLeft, Add;
    var x, y := Add(s, Times(a, PRIME_5)), Add(t, Times(b, PRIME_5));
    TimesApart(RotateLeft(x, ROTL_11), RotateLeft(y, ROTL_11), PRIME_1, 0x0e8b2f51);
    RotateApart(x, y, ROTL_11);
    SumApart(s, t, Times(a, PRIME_5), Times(b, PRIME_5));
    if Times(a, PRIME_5) == Times(b, PRIME_5) { TimesApart(a, b, PRIME_5, 0xae398151); }
  }

  lemma SumApart(s: u32, t: u32, a: u32, b: u32)
    requires Add(s, a) == Add(t, b)
    ensures s == t <==> a == b
  {
    AddApart(s, t, a);
    AddApart(a, b, s);
  }

  lemma StepsKeepApart()
    ensures KeepsStatesApart(Round) && KeepsInputsApart(Round)
    ensures KeepsStatesApart(WordStep) && KeepsInputsApart(WordStep)
    ensures KeepsStatesApart(ByteStep) && KeepsInputsApart(ByteStep)
  {
    hide Round, WordStep, ByteStep;
    forall s: u32, t: u32, a: u32, b: u32 | Round(s, a) == Round(t, b)
      ensures s == t <==> a == b
    {
      RoundApart(s, t, a, b);
    }
    forall s: u32, t: u32, a: u32, b: u32 | WordStep(s, a) == WordStep(t, b)
      ensures s == t <==> a == b
    {
      WordStepApart(s, t, a, b);
    }
    forall s: u32, t: u32, a: u8, b: u8 | ByteStep(s, a) == ByteStep(t, b)
      ensures s == t <==> a == b
    {
      ByteStepApart(s, t, a, b);
    }
  }

  lemma AvalancheApart(h: u32, g: u32)
    requires Avalanche(h) == Avalanche(g)
    ensures h == g
  {
    hide Times, XorShift;
    var h1, g1 := Times(XorShift(h, 15), PRIME_2), Times(XorShift(g, 15), PRIME_2);
    var h2, g2 := Times(XorShift(h1, 13), PRIME_3), Times(XorShift(g1, 13), PRIME_3);
    ShiftedApart(h2, g2, 16);
    TimesApart(XorShift(h1, 13), XorShift(g1, 13), PRIME_3, 0xa89ed915);
    ShiftedApart(h1, g1, 13);
    TimesApart(XorShift(h, 15), XorShift(g, 15), PRIME_2, 0xb6c92f47);
    ShiftedApart(h, g, 15);
  }

  lemma ShiftedApart(x: u32, y: u32, s: nat)
    requires s > 0 && XorShift(x, s) == XorShift(y, s)
    ensures x == y
  {
    hide Xor;
    XorShiftApart(x, y, s);
  }

  /** One changed lane changes the merged value. */
  lemma MergeApart(v: seq<u32>, w: seq<u32>, j: nat)
    requires |v| == |w| == 4 && j < 4 && v[j] != w[j]
    requires forall i :: 0 <= i < 4 && i != j ==> v[i] == w[i]
    ensures MergeLanes(v[0], v[1], v[2], v[3]) != MergeLanes(w[0], w[1], w[2], w[3])
  {
    hide Add, RotateLeft;
    var a, b := RotateLeft(v[0], ROTL_1), RotateLeft(v[1], ROTL_7);
    var c, d := RotateLeft(v[2], ROTL_12), RotateLeft(v[3], ROTL_18);
    var a', b' := RotateLeft(w[0], ROTL_1), RotateLeft(w[1], ROTL_7);
    var c', d' := RotateLeft(w[2], ROTL_12), RotateLeft(w[3], ROTL_18);
    if a == a' { RotateApart(v[0], w[0], ROTL_1); }
    if b == b' { RotateApart(v[1], w[1], ROTL_7); }
    if c == c' { RotateApart(v[2], w[2], ROTL_12); }
    if d == d' { RotateApart(v[3], w[3], ROTL_18); }
    AddApart(a, a', b);
    AddApart(b, b', a);
    AddApart(Add(a, b), Add(a', b'), c);
    AddApart(c, c', Add(a, b));
    AddApart(Add(Add(a, b), c), Add(Add(a', b'), c'), d);
    AddApart(d, d', Add(Add(a, b), c));
  }

  // ---- The theorem ----

  /** `x` and `y` differ, and only inside the aligned 4-byte word with index `w`. */
  predicate DifferInWord(x: seq<u8>, y: seq<u8>, w: nat) {
    && |x| == |y| && x != y
    && forall i :: 0 <= i < |x| && x[i] != y[i] ==> i / 4 == w
  }

  lemma WordShows(x: seq<u8>, y: seq<u8>, p: nat)
    requires p + 4 <= |x| == |y|
    ensures Word(x, p) == Word(y, p) <==> x[p..p + 4] == y[p..p + 4]
  {
    if Word(x, p) == Word(y, p) {
      LowDigit(x[p], HighDigits(x, p), y[p], HighDigits(y, p));
      LowDigit(x[p + 1], x[p + 2] + 0x100 * (x[p + 3] as int), y[p + 1], y[p + 2] + 0x100 * (y[p + 3] as int));
      LowDigit(x[p + 2], x[p + 3], y[p + 2], y[p + 3]);
    }
    if x[p..p + 4] == y[p..p + 4] {
      var s, t := x[p..p + 4], y[p..p + 4];
      assert x[p] == s[0] && x[p + 1] == s[1] && x[p + 2] == s[2] && x[p + 3] == s[3];
      assert y[p] == t[0] && y[p + 1] == t[1] && y[p + 2] == t[2] && y[p + 3] == t[3];
    }
  }

  function HighDigits(x: seq<u8>, p: nat): int
    requires p + 4 <= |x|
  {
    var b1: int, b2: int, b3: int := x[p + 1], x[p + 2], x[p + 3];
    b1 + 0x100 * (b2 + 0x100 * b3)
  }

  lemma LowDigit(a: u8, m: int, b: u8, n: int)
    requires a + 0x100 * m == b + 0x100 * n
    ensures a == b && m == n
  {
  }

  /** Aligned words other than the differing one are equal. */
  lemma WordElsewhere(x: seq<u8>, y: seq<u8>, w: nat, p: nat)
    requires DifferInWord(x, y, w) && p % 4 == 0 && p + 4 <= |x|
    ensures Word(x, p) == Word(y, p) <==> p != 4 * w
  {
    WordShows(x, y, p);
    if p == 4 * w {
      var i :| 0 <= i < |x| && x[i] != y[i];
      assert x[p..p + 4][i - p] != y[p..p + 4][i - p];
    }
  }

  lemma LaneElsewhere(x: seq<u8>, y: seq<u8>, w: nat, j: nat)
    requires DifferInWord(x, y, w) && j < 4
    ensures forall k :: 0 <= k < |x| / 16 ==> (LaneWords(x, j)[k] == LaneWords(y, j)[k] <==> 4 * k + j != w)
  {
    hide Word;
    forall k | 0 <= k < |x| / 16
      ensures LaneWords(x, j)[k] == LaneWords(y, j)[k] <==> 4 * k + j != w
    {
      WordElsewhere(x, y, w, 16 * k + 4 * j);
    }
  }

  lemma LooseAt(x: seq<u8>, y: seq<u8>, w: nat, k: nat)
    requires DifferInWord(x, y, w) && k < |x| % 16 / 4
    ensures LooseWords(x)[k] == LooseWords(y)[k] <==> |x| / 16 * 4 + k != w
  {
    assert |x| == |y|;
    hide Word, DifferInWord;
    var p := |x| / 16 * 16 + 4 * k;
    Alignment(|x|);
    assert p == 4 * (|x| / 16 * 4 + k);
    WordElsewhere(x, y, w, p);
    assert LooseWords(x)[k] == Word(x, p) && LooseWords(y)[k] == Word(y, p);
  }

  lemma LooseElsewhere(x: seq<u8>, y: seq<u8>, w: nat)
    requires DifferInWord(x, y, w)
    ensures forall k :: 0 <= k < |x| % 16 / 4 ==> (LooseWords(x)[k] == LooseWords(y)[k] <==> |x| / 16 * 4 + k != w)
  {
    hide Word;
    forall k | 0 <= k < |x| % 16 / 4
      ensures LooseWords(x)[k] == LooseWords(y)[k] <==> |x| / 16 * 4 + k != w
    {
      LooseAt(x, y, w, k);
    }
  }

  lemma LanesShow(x: seq<u8>, y: seq<u8>, w: nat, seed: u32)
    requires DifferInWord(x, y, w)
    ensures w < |x| / 16 * 4 <==> Accumulated(x, seed) != Accumulated(y, seed)
  {
    hide Round, MergeLanes, Word, LaneWords, LaneStart;
    LaneElsewhere(x, y, w, 0);
    LaneElsewhere(x, y, w, 1);
    LaneElsewhere(x, y, w, 2);
    LaneElsewhere(x, y, w, 3);
    var j, k := w % 4, w / 4;
    if w < |x| / 16 * 4 {
      assert Lane(x, seed, j) != Lane(y, seed, j) by {
        StepsKeepApart();
        OneChangeShows(Round, LaneStart(seed, j), LaneWords(x, j), LaneWords(y, j), k);
      }
      LanesAgree(x, y, w, seed);
      MergeApart([Lane(x, seed, 0), Lane(x, seed, 1), Lane(x, seed, 2), Lane(x, seed, 3)],
                 [Lane(y, seed, 0), Lane(y, seed, 1), Lane(y, seed, 2), Lane(y, seed, 3)], j);
    } else {
      assert forall i :: 0 <= i < 4 ==> LaneWords(x, i) == LaneWords(y, i);
    }
  }

  lemma LanesAgree(x: seq<u8>, y: seq<u8>, w: nat, seed: u32)
    requires DifferInWord(x, y, w)
    ensures forall i :: 0 <= i < 4 && i != w % 4 ==> Lane(x, seed, i) == Lane(y, seed, i)
  {
    hide Round, Word, LaneWords, LaneStart;
    forall i | 0 <= i < 4 && i != w % 4
      ensures Lane(x, seed, i) == Lane(y, seed, i)
    {
      LaneElsewhere(x, y, w, i);
      assert LaneWords(x, i) == LaneWords(y, i);
    }
  }

  /** The state after the 4-byte loop. */
  function AfterWords(data: seq<u8>, seed: u32): u32 {
    Fold(WordStep, Add(Accumulated(data, seed), |data| % U32_LIMIT), LooseWords(data))
  }

  lemma WordsShow(x: seq<u8>, y: seq<u8>, w: nat, seed: u32)
    requires DifferInWord(x, y, w)
    ensures 4 * w + 4 <= |x| <==> AfterWords(x, seed) != AfterWords(y, seed)
  {
    hide WordStep, Accumulated, LooseWords, Add;
    var n := |x| % U32_LIMIT;
    var a, b := Accumulated(x, seed), Accumulated(y, seed);
    StepsKeepApart();
    LooseElsewhere(x, y, w);
    LanesShow(x, y, w, seed);
    AddApart(a, b, n);
    if w < |x| / 16 * 4 {
      assert LooseWords(x) == LooseWords(y);
      FoldApart(WordStep, Add(a, n), Add(b, n), LooseWords(x));
    } else if 4 * w + 4 <= |x| {
      OneChangeShows(WordStep, Add(a, n), LooseWords(x), LooseWords(y), w - |x| / 16 * 4);
    } else {
      assert LooseWords(x) == LooseWords(y);
    }
  }

  lemma TailApart(h: u32, g: u32, bytes: seq<u8>)
    requires h != g
    ensures Avalanche(Fold(ByteStep, h, bytes)) != Avalanche(Fold(ByteStep, g, bytes))
  {
    hide Avalanche, ByteStep;
    StepsKeepApart();
    FoldApart(ByteStep, h, g, bytes);
    var x, y := Fold(ByteStep, h, bytes), Fold(ByteStep, g, bytes);
    if Avalanche(x) == Avalanche(y) { AvalancheApart(x, y); }
  }

  /**
   For a fixed seed, two inputs of equal length never collide if they differ only inside one
   whole aligned 4-byte word (in any of its bytes), whether a lane or the word loop eats it.
   */
  lemma OneWordShows(x: seq<u8>, y: seq<u8>, w: nat, seed: u32)
    requires DifferInWord(x, y, w) && 4 * w + 4 <= |x|
    ensures Hash(x, seed) != Hash(y, seed)
  {
    hide AfterWords, Avalanche, ByteStep;
    WordsShow(x, y, w, seed);
    assert LooseBytes(x) == LooseBytes(y);
    TailApart(AfterWords(x, seed), AfterWords(y, seed), LooseBytes(x));
    HashIs(x, seed);
    HashIs(y, seed);
  }

  lemma HashIs(data: seq<u8>, seed: u32)
    ensures Hash(data, seed) == Avalanche(Fold(ByteStep, AfterWords(data, seed), LooseBytes(data)))
  {
    hide Avalanche, ByteStep, WordStep, Accumulated, LooseWords, LooseBytes;
  }

  /** The same for two inputs that differ in exactly one byte, wherever it falls. */
  lemma OneByteShows(x: seq<u8>, y: seq<u8>, i: nat, seed: u32)
    requires |x| == |y| && i < |x| && x[i] != y[i]
    requires forall j :: 0 <= j < |x| && j != i ==> x[j] == y[j]
    ensures Hash(x, seed) != Hash(y, seed)
  {
    if i / 4 * 4 + 4 <= |x| {
      OneWordShows(x, y, i / 4, seed);
    } else {
      TailStart(|x|, i);
      TailByteShows(x, y, i, i / 4, seed);
    }
  }

  lemma TailStart(n: nat, i: nat)
    requires i < n < i / 4 * 4 + 4
    ensures n / 4 * 4 == 4 * (i / 4) <= i
  {
  }

  lemma TailByteShows(x: seq<u8>, y: seq<u8>, i: nat, w: nat, seed: u32)
    requires DifferInWord(x, y, w) && 4 * w == |x| / 4 * 4 <= i < |x| < 4 * w + 4
    requires x[i] != y[i] && forall j :: 0 <= j < |x| && j != i ==> x[j] == y[j]
    ensures Hash(x, seed) != Hash(y, seed)
  {
    hide AfterWords, Avalanche, ByteStep;
    WordsShow(x, y, w, seed);
    SliceDiffers(x, y, i, 4 * w);
    var h, xs, ys := AfterWords(x, seed), x[4 * w..], y[4 * w..];
    assert Fold(ByteStep, h, xs) != Fold(ByteStep, h, ys) by {
      StepsKeepApart();
      OneChangeShows(ByteStep, h, xs, ys, i - 4 * w);
    }
    var s, t := Fold(ByteStep, h, xs), Fold(ByteStep, h, ys);
    if Avalanche(s) == Avalanche(t) { AvalancheApart(s, t); }
    HashIs(x, seed);
    HashIs(y, seed);
  }

  lemma SliceDiffers(x: seq<u8>, y: seq<u8>, i: nat, b: nat)
    requires b <= i < |x| == |y| && x[i] != y[i]
    requires forall j :: 0 <= j < |x| && j != i ==> x[j] == y[j]
    ensures x[b..][i - b] != y[b..][i - b]
    ensures forall j :: 0 <= j < |x| - b && j != i - b ==> x[b..][j] == y[b..][j]
  {
  }
}
