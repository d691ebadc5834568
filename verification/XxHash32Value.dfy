/** Known answers of XXH32: two that the repository's own tests expect, and others that show the seed. */
module XxHash32Value {
  import opened Integers
  import opened Words32
  import opened Folding
  import opened XxHash32

  /** One multiply, add, turn and multiply on given values. */
  lemma StepValue(h: u32, x: u32, prime: u32, sum: u32, power: u32, quotient: u32, turned: u32, factor: u32, next: u32)
    requires (h + x * prime % U32_LIMIT) % U32_LIMIT == sum
    requires power > 0 && U32_LIMIT / power == quotient && power * quotient == U32_LIMIT
    requires sum * power % U32_LIMIT + sum / quotient == turned && turned * factor % U32_LIMIT == next
    ensures power * (U32_LIMIT / power) == U32_LIMIT
    ensures Times(RotateLeft(Add(h, Times(x, prime)), power), factor) == next
  {
  }

  lemma AvalancheIs(h: u32, y1: u32, x1: u32, h1: u32, y2: u32, x2: u32, h2: u32, y3: u32, x3: u32)
    requires h / 0x8000 == y1 && Xor(h, y1) == x1 && x1 * PRIME_2 % U32_LIMIT == h1
    requires h1 / 0x2000 == y2 && Xor(h1, y2) == x2 && x2 * PRIME_3 % U32_LIMIT == h2
    requires h2 / 0x1_0000 == y3 && Xor(h2, y3) == x3
    ensures Avalanche(h) == x3
  {
    hide Xor, ShiftRight;
    ShiftValue(h, 15, y1);
    ShiftValue(h1, 13, y2);
    ShiftValue(h2, 16, y3);
  }

  lemma FoldNone<A>(step: (u32, A) -> u32, h: u32)
    ensures Fold(step, h, []) == h
  {
  }

  lemma FoldOne<A>(step: (u32, A) -> u32, h: u32, a: A)
    ensures Fold(step, h, [a]) == step(h, a)
  {
    assert Fold(step, h, [a][..0]) == h;
  }

  lemma FoldTwo<A>(step: (u32, A) -> u32, h: u32, a: A, b: A)
    ensures Fold(step, h, [a, b]) == step(step(h, a), b)
  {
    FoldOne(step, h, a);
    assert [a, b][..1] == [a];
  }

  /** Below 16 bytes the hash starts from the seed and the length alone. */
  lemma ShortHash(data: seq<u8>, seed: u32, words: seq<u32>, loose: seq<u8>, start: u32)
    requires |data| < 16 && LooseWords(data) == words && LooseBytes(data) == loose
    requires start == (seed + PRIME_5 + |data|) % U32_LIMIT
    ensures Hash(data, seed) == Avalanche(Fold(ByteStep, Fold(WordStep, start, words), loose))
  {
    hide Avalanche, Fold, LooseWords, LooseBytes, WordStep, ByteStep;
  }

  // ---- The empty input ----

  lemma EmptyAvalanche()
    ensures Avalanche(0x165667b1) == 0x02cc5d05
  {
    hide Xor, Avalanche;
    XorQuads();
    XorZero(0x1656);
    XorNext(0x1656, 1, 2, 0x0, 0, 2, 0x1656, 1, 0);
    XorNext(0x16566, 1, 3, 0x2, 3, 0, 0x16564, 2, 3);
    XorNext(0x165667, 2, 3, 0x2c, 2, 2, 0x16564b, 0, 1);
    XorNext(0x165667b, 0, 1, 0x2ca, 3, 0, 0x16564b1, 3, 1);
    XorZero(0x7e0);
    XorNext(0x7e0, 0, 0, 0x0, 0, 3, 0x7e0, 0, 3);
    XorNext(0x7e00, 3, 0, 0x3, 3, 3, 0x7e03, 0, 3);
    XorNext(0x7e00c, 3, 0, 0x3f, 0, 0, 0x7e033, 3, 0);
    XorNext(0x7e00cc, 1, 3, 0x3f0, 0, 0, 0x7e033c, 1, 3);
    XorNext(0x7e00cc7, 2, 3, 0x3f00, 1, 2, 0x7e033c7, 3, 1);
    XorZero(0x02cc5);
    XorNext(0x2cc5, 3, 3, 0x0, 0, 2, 0x2cc5, 3, 1);
    XorNext(0x2cc5f, 3, 0, 0x2, 3, 0, 0x2cc5d, 0, 0);
    XorNext(0x2cc5fc, 2, 1, 0x2c, 3, 0, 0x2cc5d0, 1, 1);
    AvalancheIs(0x165667b1, 0x2cac, 0x16564b1d, 0x7e00cc7b, 0x3f006, 0x7e033c7d, 0x02cc5fc9, 0x2cc, 0x02cc5d05);
  }

  lemma SeededAvalanche()
    ensures Avalanche(0xb48de162) == 0x36b78ae7
  {
    hide Xor, Avalanche;
    XorQuads();
    XorZero(0xb48);
    XorNext(0xb48, 3, 1, 0x0, 0, 1, 0xb48, 3, 0);
    XorNext(0xb48d, 3, 2, 0x1, 1, 2, 0xb48c, 2, 0);
    XorNext(0xb48de, 0, 1, 0x16, 2, 1, 0xb48c8, 2, 0);
    XorNext(0xb48de1, 1, 2, 0x169, 0, 1, 0xb48c88, 1, 3);
    XorNext(0xb48de16, 0, 2, 0x1691, 2, 3, 0xb48c887, 2, 1);
    XorZero(0xf51);
    XorNext(0xf51, 1, 1, 0x0, 1, 3, 0xf51, 0, 2);
    XorNext(0xf515, 3, 2, 0x7, 2, 2, 0xf512, 1, 0);
    XorNext(0xf515e, 2, 2, 0x7a, 2, 0, 0xf5124, 0, 2);
    XorNext(0xf515ea, 0, 3, 0x7a8, 2, 2, 0xf51242, 2, 1);
    XorNext(0xf515ea3, 3, 3, 0x7a8a, 3, 3, 0xf512429, 0, 0);
    XorZero(0x36b7);
    XorNext(0x36b7, 2, 3, 0x0, 0, 3, 0x36b7, 2, 0);
    XorNext(0x36b7b, 3, 0, 0x3, 1, 2, 0x36b78, 2, 2);
    XorNext(0x36b7bc, 1, 1, 0x36, 2, 3, 0x36b78a, 3, 2);
    XorNext(0x36b7bc5, 0, 0, 0x36b, 1, 3, 0x36b78ae, 1, 3);
    AvalancheIs(0xb48de162, 0x1691b, 0xb48c8879, 0xf515ea3f, 0x7a8af, 0xf5124290, 0x36b7bc50, 0x36b7, 0x36b78ae7);
  }

  lemma EmptyAnswer()
    ensures Hash([], 0) == 0x02CC5D05
    ensures Hash([], 0x9E3779B1) == 0x36B78AE7
  {
    hide Avalanche, LooseWords, LooseBytes;
    EmptyAvalanche();
    SeededAvalanche();
    NothingLoose();
    FoldNone(WordStep, 0x165667b1);
    FoldNone(ByteStep, 0x165667b1);
    FoldNone(WordStep, 0xb48de162);
    FoldNone(ByteStep, 0xb48de162);
    ShortHash([], 0, [], [], 0x165667b1);
    ShortHash([], 0x9E3779B1, [], [], 0xb48de162);
  }

  lemma NothingLoose()
    ensures LooseWords([]) == [] && LooseBytes([]) == []
  {
  }

  // ---- "123456789" ----

  const DIGITS: seq<u8> := [0x31, 0x32, 0x33, 0x34, 0x35, 0x36, 0x37, 0x38, 0x39]

  lemma DigitsAvalanche()
    ensures Avalanche(0x3116dc68) == 0x937bad67
  {
    hide Xor, Avalanche;
    XorQuads();
    XorZero(0x3116);
    XorNext(0x3116, 3, 1, 0x0, 1, 2, 0x3116, 2, 3);
    XorNext(0x3116d, 3, 0, 0x6, 0, 2, 0x3116b, 3, 2);
    XorNext(0x3116dc, 1, 2, 0x62, 0, 2, 0x3116be, 1, 0);
    XorNext(0x3116dc6, 2, 0, 0x622, 3, 1, 0x3116be4, 1, 1);
    XorZero(0x460);
    XorNext(0x460, 2, 3, 0x0, 0, 2, 0x460, 2, 1);
    XorNext(0x460b, 3, 2, 0x2, 0, 3, 0x4609, 3, 1);
    XorNext(0x460be, 1, 0, 0x23, 0, 0, 0x4609d, 1, 0);
    XorNext(0x460be4, 0, 1, 0x230, 1, 1, 0x4609d4, 1, 0);
    XorNext(0x460be41, 0, 3, 0x2305, 3, 3, 0x4609d44, 3, 0);
    XorZero(0x937b);
    XorNext(0x937b, 0, 3, 0x0, 2, 1, 0x937b, 2, 2);
    XorNext(0x937b3, 3, 2, 0x9, 0, 3, 0x937ba, 3, 1);
    XorNext(0x937b3e, 0, 1, 0x93, 1, 3, 0x937bad, 1, 2);
    XorNext(0x937b3e1, 3, 0, 0x937, 2, 3, 0x937bad6, 1, 3);
    AvalancheIs(0x3116dc68, 0x622d, 0x3116be45, 0x460be413, 0x2305f, 0x4609d44c, 0x937b3e1c, 0x937b, 0x937bad67);
  }

  lemma DigitsLoose()
    ensures LooseWords(DIGITS) == [0x34333231, 0x38373635] && LooseBytes(DIGITS) == [0x39]
  {
    assert Word(DIGITS, 0) == 0x34333231;
    assert Word(DIGITS, 4) == 0x38373635;
    hide Word;
    assert DIGITS[8..] == [0x39];
  }

  lemma DigitsFolded()
    ensures Fold(ByteStep, Fold(WordStep, 0x165667ba, [0x34333231, 0x38373635]), [0x39]) == 0x3116dc68
  {
    hide Times, RotateLeft, Add;
    StepValue(0x165667ba, 0x34333231, PRIME_3, 0x5ab8ab67, ROTL_17, 0x8000, 0x56ceb571, PRIME_4, 0x29160abf);
    StepValue(0x29160abf, 0x38373635, PRIME_3, 0xefeffb60, ROTL_17, 0x8000, 0xf6c1dfdf, PRIME_4, 0xa3c5cef1);
    StepValue(0xa3c5cef1, 0x39, PRIME_5, 0x9d02e55a, ROTL_11, 0x20_0000, 0x172ad4e8, PRIME_1, 0x3116dc68);
    FoldTwo(WordStep, 0x165667ba, 0x34333231, 0x38373635);
    FoldOne(ByteStep, 0xa3c5cef1, 0x39);
  }

  lemma DigitsAnswer()
    ensures Hash(DIGITS, 0) == 0x937BAD67
  {
    hide Avalanche, Fold, LooseWords, LooseBytes, Hash;
    DigitsLoose();
    DigitsFolded();
    DigitsAvalanche();
    ShortHash(DIGITS, 0, [0x34333231, 0x38373635], [0x39], 0x165667ba);
  }

  // ---- One stripe, "The quick brown ", with a seed ----

  const HEAD: seq<u8> := [
    0x54, 0x68, 0x65, 0x20, 0x71, 0x75, 0x69, 0x63,
    0x6b, 0x20, 0x62, 0x72, 0x6f, 0x77, 0x6e, 0x20]

  lemma HeadWords()
    ensures Word(HEAD, 0) == 0x20656854 && Word(HEAD, 4) == 0x63697571
    ensures Word(HEAD, 8) == 0x7262206b && Word(HEAD, 12) == 0x206e776f
  {
  }

  lemma HeadRound0()
    ensures Fold(Round, 0x2546898f, [0x20656854]) == 0x8c103fcb
  {
    hide Times, RotateLeft, Add, Fold;
    StepValue(0x2546898f, 0x20656854, PRIME_2, 0xa1d8509b, ROTL_13, 0x8_0000, 0x0a13743b, PRIME_1, 0x8c103fcb);
    FoldOne(Round, 0x2546898f, 0x20656854);
  }

  lemma HeadRound1()
    ensures Fold(Round, 0x870f0fde, [0x63697571]) == 0x8eecea3f
  {
    hide Times, RotateLeft, Add, Fold;
    StepValue(0x870f0fde, 0x63697571, PRIME_2, 0x777ad165, ROTL_13, 0x8_0000, 0x5a2caeef, PRIME_1, 0x8eecea3f);
    FoldOne(Round, 0x870f0fde, 0x63697571);
  }

  lemma HeadRound2()
    ensures Fold(Round, 0x01234567, [0x7262206b]) == 0x40fbf521
  {
    hide Times, RotateLeft, Add, Fold;
    StepValue(0x01234567, 0x7262206b, PRIME_2, 0xf38dc524, ROTL_13, 0x8_0000, 0xb8a49e71, PRIME_1, 0x40fbf521);
    FoldOne(Round, 0x01234567, 0x7262206b);
  }

  lemma HeadRound3()
    ensures Fold(Round, 0x62ebcbb6, [0x206e776f]) == 0xaf71e60c
  {
    hide Times, RotateLeft, Add, Fold;
    StepValue(0x62ebcbb6, 0x206e776f, PRIME_2, 0xee67e64f, ROTL_13, 0x8_0000, 0xfcc9fdcc, PRIME_1, 0xaf71e60c);
    FoldOne(Round, 0x62ebcbb6, 0x206e776f);
  }

  lemma HeadStarts()
    ensures LaneStart(0x01234567, 0) == 0x2546898f && LaneStart(0x01234567, 1) == 0x870f0fde
    ensures LaneStart(0x01234567, 2) == 0x01234567 && LaneStart(0x01234567, 3) == 0x62ebcbb6
    ensures LaneWords(HEAD, 0) == [0x20656854] && LaneWords(HEAD, 1) == [0x63697571]
    ensures LaneWords(HEAD, 2) == [0x7262206b] && LaneWords(HEAD, 3) == [0x206e776f]
  {
    HeadWords();
    hide Word;
  }

  lemma HeadAccumulated()
    ensures Accumulated(HEAD, 0x01234567) == 0xe61a7134
  {
    hide MergeLanes, Round, LaneStart, LaneWords, Fold;
    HeadStarts();
    HeadRound0();
    HeadRound1();
    HeadRound2();
    HeadRound3();
    HeadMerged();
  }

  lemma HeadMerged()
    ensures MergeLanes(0x8c103fcb, 0x8eecea3f, 0x40fbf521, 0xaf71e60c) == 0xe61a7134
  {
    assert RotateLeft(0x8c103fcb, ROTL_1) == 0x18207f97;
    assert RotateLeft(0x8eecea3f, ROTL_7) == 0x76751fc7;
    assert RotateLeft(0x40fbf521, ROTL_12) == 0xbf52140f;
    assert RotateLeft(0xaf71e60c, ROTL_18) == 0x9832bdc7;
    hide RotateLeft;
  }

  lemma HeadAvalanche()
    ensures Avalanche(0xe61a7144) == 0xe833614c
  {
    hide Xor, Avalanche;
    XorQuads();
    XorZero(0xe61);
    XorNext(0xe61, 2, 2, 0x0, 0, 1, 0xe61, 2, 3);
    XorNext(0xe61a, 1, 3, 0x1, 3, 0, 0xe61b, 2, 3);
    XorNext(0xe61a7, 0, 1, 0x1c, 3, 0, 0xe61bb, 3, 1);
    XorNext(0xe61a71, 1, 0, 0x1cc, 0, 3, 0xe61bbd, 1, 3);
    XorNext(0xe61a714, 1, 0, 0x1cc3, 1, 0, 0xe61bbd7, 0, 0);
    XorZero(0xf02);
    XorNext(0xf02, 3, 3, 0x0, 1, 3, 0xf02, 2, 0);
    XorNext(0xf02f, 1, 2, 0x7, 2, 0, 0xf028, 3, 2);
    XorNext(0xf02f6, 3, 3, 0x78, 0, 1, 0xf028e, 3, 2);
    XorNext(0xf02f6f, 0, 1, 0x781, 1, 3, 0xf028ee, 1, 2);
    XorNext(0xf02f6f1, 0, 0, 0x7817, 2, 3, 0xf028ee6, 2, 3);
    XorZero(0xe833);
    XorNext(0xe833, 2, 0, 0x0, 3, 2, 0xe833, 1, 2);
    XorNext(0xe8338, 2, 1, 0xe, 2, 0, 0xe8336, 0, 1);
    XorNext(0xe83389, 1, 3, 0xe8, 0, 3, 0xe83361, 1, 0);
    XorNext(0xe833897, 3, 3, 0xe83, 0, 3, 0xe833614, 3, 0);
    AvalancheIs(0xe61a7144, 0x1cc34, 0xe61bbd70, 0xf02f6f10, 0x7817b, 0xf028ee6b, 0xe833897f, 0xe833, 0xe833614c);
  }

  lemma StripeAnswer()
    ensures Hash(HEAD, 0x01234567) == 0xE833614C
  {
    hide Avalanche, Accumulated, WordStep, ByteStep;
    HeadAccumulated();
    HeadAvalanche();
    assert LooseWords(HEAD) == [] && LooseBytes(HEAD) == [];
    assert Add(0xe61a7134, 16) == 0xe61a7144;
  }

  // ---- Two stripes, two words and three bytes ----

  const MIDDLE: seq<u8> := [
    0x66, 0x6f, 0x78, 0x20, 0x6a, 0x75, 0x6d, 0x70,
    0x73, 0x20, 0x6f, 0x76, 0x65, 0x72, 0x20, 0x74]
  const TAIL: seq<u8> := [0x68, 0x65, 0x20, 0x6c, 0x61, 0x7a, 0x79, 0x20, 0x64, 0x6f, 0x67]
  const TEXT: seq<u8> := HEAD + (MIDDLE + TAIL)

  lemma LaneValue0()
    ensures Fold(Round, 0x24234428, [0x20656854, 0x20786f66]) == 0x194e4195
  {
    hide Times, RotateLeft, Add;
    StepValue(0x24234428, 0x20656854, PRIME_2, 0xa0b50b34, ROTL_13, 0x8_0000, 0xa1669416, PRIME_1, 0x78a4c936);
    StepValue(0x78a4c936, 0x20786f66, PRIME_2, 0xd9290da0, ROTL_13, 0x8_0000, 0x21b41b25, PRIME_1, 0x194e4195);
    FoldTwo(Round, 0x24234428, 0x20656854, 0x20786f66);
  }

  lemma LaneValue1()
    ensures Fold(Round, 0x85ebca77, [0x63697571, 0x706d756a]) == 0x4915f9ca
  {
    hide Times, RotateLeft, Add;
    StepValue(0x85ebca77, 0x63697571, PRIME_2, 0x76578bfe, ROTL_13, 0x8_0000, 0xf17fceca, PRIME_1, 0x7b8173aa);
    StepValue(0x7b8173aa, 0x706d756a, PRIME_2, 0xf756abf0, ROTL_13, 0x8_0000, 0xd57e1eea, PRIME_1, 0x4915f9ca);
    FoldTwo(Round, 0x85ebca77, 0x63697571, 0x706d756a);
  }

  lemma LaneValue2()
    ensures Fold(Round, 0x00000000, [0x7262206b, 0x766f2073]) == 0x9302e043
  {
    hide Times, RotateLeft, Add;
    StepValue(0x00000000, 0x7262206b, PRIME_2, 0xf26a7fbd, ROTL_13, 0x8_0000, 0x4ff7be4d, PRIME_1, 0xcbc7f83d);
    StepValue(0xcbc7f83d, 0x766f2073, PRIME_2, 0x119bcbb2, ROTL_13, 0x8_0000, 0x79764233, PRIME_1, 0x9302e043);
    FoldTwo(Round, 0x00000000, 0x7262206b, 0x766f2073);
  }

  lemma LaneValue3()
    ensures Fold(Round, 0x61c8864f, [0x206e776f, 0x74207265]) == 0xfbbd8299
  {
    hide Times, RotateLeft, Add;
    StepValue(0x61c8864f, 0x206e776f, PRIME_2, 0xed44a0e8, ROTL_13, 0x8_0000, 0x941d1da8, PRIME_1, 0x3a3de928);
    StepValue(0x3a3de928, 0x74207265, PRIME_2, 0x4b4dc81b, ROTL_13, 0x8_0000, 0xb9036969, PRIME_1, 0xfbbd8299);
    FoldTwo(Round, 0x61c8864f, 0x206e776f, 0x74207265);
  }

  lemma LanesMerged()
    ensures MergeLanes(0x194e4195, 0x4915f9ca, 0x9302e043, 0xfbbd8299) == 0xf6059074
  {
    assert RotateLeft(0x194e4195, ROTL_1) == 0x329c832a;
    assert RotateLeft(0x4915f9ca, ROTL_7) == 0x8afce524;
    assert RotateLeft(0x9302e043, ROTL_12) == 0x2e043930;
    assert RotateLeft(0xfbbd8299, ROTL_18) == 0x0a67eef6;
    hide RotateLeft;
  }

  lemma MiddleWords()
    ensures Word(MIDDLE, 0) == 0x20786f66 && Word(MIDDLE, 4) == 0x706d756a
    ensures Word(MIDDLE, 8) == 0x766f2073 && Word(MIDDLE, 12) == 0x74207265
  {
  }

  lemma TailWords()
    ensures Word(TAIL, 0) == 0x6c206568 && Word(TAIL, 4) == 0x20797a61
  {
  }

  lemma WordIn(a: seq<u8>, b: seq<u8>, p: nat)
    requires p + 4 <= |a| + |b| && (p + 4 <= |a| || |a| <= p)
    ensures Word(a + b, p) == if p + 4 <= |a| then Word(a, p) else Word(b, p - |a|)
  {
  }

  lemma TextWord(p: nat)
    requires p % 4 == 0 && p + 4 <= 43
    ensures Word(TEXT, p)
         == if p < 16 then Word(HEAD, p) else if p < 32 then Word(MIDDLE, p - 16) else Word(TAIL, p - 32)
  {
    hide Word;
    WordIn(HEAD, MIDDLE + TAIL, p);
    if p >= 16 { WordIn(MIDDLE, TAIL, p - 16); }
  }

  lemma TextWords()
    ensures LaneWords(TEXT, 0) == [0x20656854, 0x20786f66] && LaneWords(TEXT, 1) == [0x63697571, 0x706d756a]
    ensures LaneWords(TEXT, 2) == [0x7262206b, 0x766f2073] && LaneWords(TEXT, 3) == [0x206e776f, 0x74207265]
    ensures LooseWords(TEXT) == [0x6c206568, 0x20797a61] && LooseBytes(TEXT) == [0x64, 0x6f, 0x67]
  {
    hide Word;
    HeadWords();
    MiddleWords();
    TailWords();
    TextWord(0);
    TextWord(4);
    TextWord(8);
    TextWord(12);
    TextWord(16);
    TextWord(20);
    TextWord(24);
    TextWord(28);
    TextWord(32);
    TextWord(36);
    assert TEXT[40..] == [0x64, 0x6f, 0x67];
  }

  lemma TextAccumulated()
    ensures Accumulated(TEXT, 0) == 0xf6059074
  {
    TextWords();
    LaneValue0();
    LaneValue1();
    LaneValue2();
    LaneValue3();
    LanesMerged();
    Starts();
    hide Round, MergeLanes, LaneWords, LaneStart, Fold;
  }

  lemma Starts()
    ensures LaneStart(0, 0) == 0x24234428 && LaneStart(0, 1) == PRIME_2
    ensures LaneStart(0, 2) == 0 && LaneStart(0, 3) == 0x61c8864f
  {
  }

  lemma WordsFolded()
    ensures Fold(WordStep, 0xf605909f, [0x6c206568, 0x20797a61]) == 0x5bdab296
  {
    hide Times, RotateLeft, Add;
    StepValue(0xf605909f, 0x6c206568, PRIME_3, 0x10fa6a67, ROTL_17, 0x8000, 0xd4ce21f4, PRIME_4, 0x951337cc);
    StepValue(0x951337cc, 0x20797a61, PRIME_3, 0x7ca54ee9, ROTL_17, 0x8000, 0x9dd2f94a, PRIME_4, 0x5bdab296);
    FoldTwo(WordStep, 0xf605909f, 0x6c206568, 0x20797a61);
  }

  lemma BytesFolded()
    ensures Fold(ByteStep, 0x5bdab296, [0x64, 0x6f, 0x67]) == 0x38b1278f
  {
    hide Times, RotateLeft, Add;
    StepValue(0x5bdab296, 0x64, PRIME_5, 0x159b33ba, ROTL_11, 0x20_0000, 0xd99dd0ac, PRIME_1, 0x0ab292ec);
    StepValue(0x0ab292ec, 0x6f, PRIME_5, 0xba2988ab, ROTL_11, 0x20_0000, 0x4c455dd1, PRIME_1, 0xab34a681);
    StepValue(0xab34a681, 0x67, PRIME_5, 0xa7f85eb8, ROTL_11, 0x20_0000, 0xc2f5c53f, PRIME_1, 0x38b1278f);
    FoldTwo(ByteStep, 0x5bdab296, 0x64, 0x6f);
    assert [0x64, 0x6f, 0x67][..2] == [0x64, 0x6f];
  }

  lemma TextAvalanche()
    ensures Avalanche(0x38b1278f) == 0xe85ea4de
  {
    hide Xor, Avalanche;
    XorQuads();
    XorZero(0x38b1);
    XorNext(0x38b1, 0, 2, 0x0, 1, 3, 0x38b1, 1, 1);
    XorNext(0x38b12, 1, 3, 0x7, 0, 1, 0x38b15, 1, 2);
    XorNext(0x38b127, 2, 0, 0x71, 1, 2, 0x38b156, 3, 2);
    XorNext(0x38b1278, 3, 3, 0x716, 0, 2, 0x38b156e, 3, 1);
    XorZero(0x359);
    XorNext(0x359, 1, 1, 0x0, 0, 1, 0x359, 1, 0);
    XorNext(0x3595, 1, 2, 0x1, 2, 2, 0x3594, 3, 0);
    XorNext(0x35956, 2, 2, 0x1a, 3, 0, 0x3594c, 1, 2);
    XorNext(0x35956a, 0, 2, 0x1ac, 2, 2, 0x3594c6, 2, 0);
    XorNext(0x35956a2, 2, 3, 0x1aca, 2, 3, 0x3594c68, 0, 0);
    XorZero(0xe85e);
    XorNext(0xe85e, 1, 0, 0x0, 3, 2, 0xe85e, 2, 2);
    XorNext(0xe85e4, 3, 0, 0xe, 2, 0, 0xe85ea, 1, 0);
    XorNext(0xe85e4c, 2, 0, 0xe8, 1, 1, 0xe85ea4, 3, 1);
    XorNext(0xe85e4c8, 0, 0, 0xe85, 3, 2, 0xe85ea4d, 3, 2);
    AvalancheIs(0x38b1278f, 0x7162, 0x38b156ed, 0x35956a2b, 0x1acab, 0x3594c680, 0xe85e4c80, 0xe85e, 0xe85ea4de);
  }

  /** The value goes through the stripes, the words left over and the bytes left over. */
  lemma TextAnswer()
    ensures Hash(TEXT, 0) == 0xE85EA4DE
  {
    TextWords();
    TextAccumulated();
    WordsFolded();
    BytesFolded();
    TextAvalanche();
    assert |TEXT| % U32_LIMIT == 43 && Add(0xf6059074, 43) == 0xf605909f;
    hide WordStep, ByteStep, Avalanche, Accumulated, LooseWords, LooseBytes, Fold, Add;
  }
}
