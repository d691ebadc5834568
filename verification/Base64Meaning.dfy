/** Base64 on literals and in numbers: the alphabet itself, known answers, and what any text decodes to. */
module Base64Meaning {
  import opened Integers
  import opened Base64

  // ---- The alphabet ----

  const CAPITALS: string := "ABCDEFGHIJKLMNOPQRSTUVWXYZ"
  const SMALLS: string := "abcdefghijklmnopqrstuvwxyz"
  const OTHERS: string := "0123456789+/"
  const CHARACTER_TABLE: string := CAPITALS + SMALLS + OTHERS

  lemma CharIsCapital(i: nat)
    requires i < 26
    ensures |CAPITALS| == 26 && Char(i) == CAPITALS[i]
  {
  }

  lemma CharIsSmall(i: nat)
    requires i < 26
    ensures |SMALLS| == 26 && Char(26 + i) == SMALLS[i]
  {
  }

  lemma CharIsOther(i: nat)
    requires i < 12
    ensures |OTHERS| == 12 && Char(52 + i) == OTHERS[i]
  {
  }

  /** Sextet `i` is written as character `i` of the table. */
  lemma CharIsTheTable(i: sextet)
    ensures |CHARACTER_TABLE| == 64 && Char(i) == CHARACTER_TABLE[i]
  {
    hide Char;
    if i < 26 {
      CharIsCapital(i);
    } else if i < 52 {
      CharIsSmall(i - 26);
    } else {
      CharIsOther(i - 52);
    }
  }

  /** Exactly the table's characters are read, each as its place in the table. */
  lemma IndexIsTheTable(c: char)
    ensures IsBase64(c) <==> c in CHARACTER_TABLE
    ensures IsBase64(c) ==> CHARACTER_TABLE[Index(c)] == c
  {
    if IsBase64(c) {
      IndexInverse(c);
      CharIsTheTable(Index(c));
    }
    hide IsBase64, Char, Index;
    if i: nat :| i < |CHARACTER_TABLE| && CHARACTER_TABLE[i] == c {
      CharIsTheTable(i);
      AlphabetInverse(i);
    }
  }

  // ---- Known answers ----

  lemma OneTriple(b0: u8, b1: u8, b2: u8, rest: seq<u8>, n0: sextet, n1: sextet, n2: sextet, n3: sextet)
    requires b0 * 0x1_0000 + b1 * 0x100 + b2 == n0 * 0x4_0000 + n1 * 0x1000 + n2 * 0x40 + n3
    ensures Encode([b0, b1, b2] + rest) == [Char(n0), Char(n1), Char(n2), Char(n3)] + Encode(rest)
  {
    var data := [b0, b1, b2] + rest;
    SextetDigits(Triple(b0, b1, b2), n0, n1, n2, n3);
    GroupCharacters(data, Triple(b0, b1, b2));
    assert Rest(data) == rest;
    hide Sextet, Char, EncodeGroup;
  }

  lemma LastPair(b0: u8, b1: u8, n0: sextet, n1: sextet, n2: sextet)
    requires b0 * 0x1_0000 + b1 * 0x100 == n0 * 0x4_0000 + n1 * 0x1000 + n2 * 0x40
    ensures Encode([b0, b1]) == [Char(n0), Char(n1), Char(n2), '=']
  {
    SextetDigits(Triple(b0, b1, 0), n0, n1, n2, 0);
    GroupCharacters([b0, b1], Triple(b0, b1, 0));
    assert Encode(Rest([b0, b1])) == "";
    hide Sextet, Char, EncodeGroup;
  }

  lemma LastByte(b0: u8, n0: sextet, n1: sextet)
    requires b0 * 0x1_0000 == n0 * 0x4_0000 + n1 * 0x1000
    ensures Encode([b0]) == [Char(n0), Char(n1), '=', '=']
  {
    SextetDigits(Triple(b0, 0, 0), n0, n1, 0, 0);
    GroupCharacters([b0], Triple(b0, 0, 0));
    assert Encode(Rest([b0])) == "";
    hide Sextet, Char, EncodeGroup;
  }

  /** "Hello World" and the three paddings of "Man", as the repository's tests expect them. */
  lemma KnownAnswers()
    ensures Encode([0x48, 0x65, 0x6c, 0x6c, 0x6f, 0x20, 0x57, 0x6f, 0x72, 0x6c, 0x64]) == "SGVsbG8gV29ybGQ="
    ensures Encode([0x4d]) == "TQ==" && Encode([0x4d, 0x61]) == "TWE=" && Encode([0x4d, 0x61, 0x6e]) == "TWFu"
  {
    hide Encode;
    OneTriple(0x48, 0x65, 0x6c, [0x6c, 0x6f, 0x20, 0x57, 0x6f, 0x72, 0x6c, 0x64], 18, 6, 21, 44);
    OneTriple(0x6c, 0x6f, 0x20, [0x57, 0x6f, 0x72, 0x6c, 0x64], 27, 6, 60, 32);
    OneTriple(0x57, 0x6f, 0x72, [0x6c, 0x64], 21, 54, 61, 50);
    LastPair(0x6c, 0x64, 27, 6, 16);
    assert [0x57, 0x6f, 0x72] + [0x6c, 0x64] == [0x57, 0x6f, 0x72, 0x6c, 0x64];
    assert [0x6c, 0x6f, 0x20] + [0x57, 0x6f, 0x72, 0x6c, 0x64] == [0x6c, 0x6f, 0x20, 0x57, 0x6f, 0x72, 0x6c, 0x64];
    assert [0x48, 0x65, 0x6c] + [0x6c, 0x6f, 0x20, 0x57, 0x6f, 0x72, 0x6c, 0x64]
        == [0x48, 0x65, 0x6c, 0x6c, 0x6f, 0x20, 0x57, 0x6f, 0x72, 0x6c, 0x64];
    LastByte(0x4d, 19, 16);
    LastPair(0x4d, 0x61, 19, 22, 4);
    OneTriple(0x4d, 0x61, 0x6e, [], 19, 22, 5, 46);
    EncodeNothing();
    assert [0x4d, 0x61, 0x6e] + [] == [0x4d, 0x61, 0x6e];
  }

  // ---- Any text ----

  predicate InAlphabet(s: string) {
    forall i :: 0 <= i < |s| ==> IsBase64(s[i])
  }

  lemma {:induction false} PrefixOf(s: string, rest: string)
    requires InAlphabet(s) && (rest != "" ==> !IsBase64(rest[0]))
    ensures ValidPrefix(s + rest) == s
  {
    hide IsBase64;
    if s == "" {
      assert s + rest == rest;
    } else {
      assert IsBase64(s[0]) && (s + rest)[1..] == s[1..] + rest;
      NotPadding(s[0]);
      PrefixOf(s[1..], rest);
      assert [s[0]] + s[1..] == s;
    }
  }

  lemma NotPadding(c: char)
    ensures IsBase64(c) ==> c != '='
  {
  }

  /** How much of the number that a text writes in base 64 its decoding drops. */
  function Dropped(n: nat): nat {
    match n % 4
    case 0 => 1
    case 1 => 0x40
    case 2 => 0x10
    case _ => 4
  }

  lemma FourMore(n: nat)
    requires n >= 4
    ensures Dropped(n - 4) == Dropped(n) && n * 3 / 4 == 3 + (n - 4) * 3 / 4
  {
  }

  /**
   What any text decodes to, canonical or not: the characters before the first padding or foreign one
   give three bytes for every four, rounded down, which write in base 256 the number that those
   characters write in base 64, without its last bits; what follows is ignored.
   */
  lemma DecodeMeans(s: string, rest: string)
    requires InAlphabet(s) && (rest != "" ==> !IsBase64(rest[0]))
    ensures |Decode(s + rest)| == |s| * 3 / 4
    ensures ByteNumber(0, Decode(s + rest)) == Base64Number(0, s) / Dropped(|s|)
  {
    PrefixOf(s, rest);
    DecodesTheNumber(0, s);
    hide IsBase64, DecodeChars, Base64Number, ByteNumber, Dropped;
  }

  lemma {:induction false} DecodesTheNumber(n: nat, s: string)
    ensures |DecodeChars(s)| == |s| * 3 / 4
    ensures ByteNumber(n, DecodeChars(s)) == Base64Number(n, s) / Dropped(|s|)
    decreases |s|
  {
    if |s| >= 4 {
      var t := Index(s[0]) * 0x4_0000 + Index(s[1]) * 0x1000 + Index(s[2]) * 0x40 + Index(s[3]);
      DecodesTheNumber(n * 0x100_0000 + t, s[4..]);
      FourMore(|s|);
      FourDigits(n, s[0], s[1], s[2], s[3], t, s[4..]);
      assert [s[0], s[1], s[2], s[3]] + s[4..] == s;
      ByteDigits(Index(s[0]), Index(s[1]), Index(s[2]), Index(s[3]));
      hide Index, FirstByte, SecondByte, ThirdByte, Triple, ByteNumber, Base64Number, Dropped;
      var g := DecodeGroup(s[0], s[1], s[2], s[3]);
      ThreeBytes(n, g[0], g[1], g[2], DecodeChars(s[4..]));
      assert [g[0], g[1], g[2]] == g;
    } else {
      FewDigits(n, s);
    }
  }

  lemma FewDigits(n: nat, s: string)
    requires |s| < 4
    ensures |DecodeChars(s)| == |s| * 3 / 4
    ensures ByteNumber(n, DecodeChars(s)) == Base64Number(n, s) / Dropped(|s|)
  {
    FewBytes(s);
    SmallNumbers(n, s);
    SmallByteNumbers(n, DecodeChars(s));
    hide Base64Number, ByteNumber, DecodeChars, Index, FirstByte, SecondByte;
    if |s| == 1 {
      assert (n * 0x40 + Index(s[0])) / 0x40 == n;
    } else if |s| == 2 {
      OneByteOfTwo(n, Index(s[0]), Index(s[1]));
    } else if |s| == 3 {
      TwoBytesOfThree(n, Index(s[0]), Index(s[1]), Index(s[2]));
    }
  }

  lemma FewBytes(s: string)
    requires |s| < 4
    ensures |DecodeChars(s)| == if |s| <= 1 then 0 else |s| - 1
    ensures |s| > 1 ==> DecodeChars(s)[0] == FirstByte(Index(s[0]), Index(s[1]))
    ensures |s| > 2 ==> DecodeChars(s)[1] == SecondByte(Index(s[1]), Index(s[2]))
  {
    hide Index, FirstByte, SecondByte;
  }

  lemma SmallNumbers(n: nat, s: string)
    requires |s| < 4
    ensures |s| == 0 ==> Base64Number(n, s) == n
    ensures |s| == 1 ==> Base64Number(n, s) == n * 0x40 + Index(s[0])
    ensures |s| == 2 ==> Base64Number(n, s) == (n * 0x40 + Index(s[0])) * 0x40 + Index(s[1])
    ensures |s| == 3 ==> Base64Number(n, s) == ((n * 0x40 + Index(s[0])) * 0x40 + Index(s[1])) * 0x40 + Index(s[2])
    decreases |s|
  {
    hide Index;
    if s != "" { SmallNumbers(n * 0x40 + Index(s[0]), s[1..]); }
  }

  lemma SmallByteNumbers(n: nat, data: seq<u8>)
    requires |data| < 3
    ensures |data| == 0 ==> ByteNumber(n, data) == n
    ensures |data| == 1 ==> ByteNumber(n, data) == n * 0x100 + data[0]
    ensures |data| == 2 ==> ByteNumber(n, data) == (n * 0x100 + data[0]) * 0x100 + data[1]
    decreases |data|
  {
    if data != [] { SmallByteNumbers(n * 0x100 + data[0], data[1..]); }
  }

  lemma OneByteOfTwo(n: nat, n0: sextet, n1: sextet)
    ensures n * 0x100 + FirstByte(n0, n1) == ((n * 0x40 + n0) * 0x40 + n1) / 0x10
  {
  }

  lemma TwoBytesOfThree(n: nat, n0: sextet, n1: sextet, n2: sextet)
    ensures (n * 0x100 + FirstByte(n0, n1)) * 0x100 + SecondByte(n1, n2)
         == (((n * 0x40 + n0) * 0x40 + n1) * 0x40 + n2) / 4
  {
    assert n1 == n1 / 16 * 16 + n1 % 16;
    var y := (n * 0x100 + FirstByte(n0, n1)) * 0x100 + n1 % 16 * 16;
    assert ((n * 0x40 + n0) * 0x40 + n1) * 0x40 == 4 * y;
    assert (4 * y + n2) / 4 == y + n2 / 4;
  }
}
