/** FNV-1a of the ASCII digits "123456789" and of nothing, as the repository's own tests expect it. */
module Fnv1aValue {
  import opened Integers
  import opened Words32
  import opened Fnv1a

  lemma OneMore(s: seq<u8>, h: u32, b: u8, x: u32, hash: u32)
    requires Hash(s) == h && Xor(h, b) == x && hash == x * PRIME % U32_LIMIT
    ensures Hash(s + [b]) == hash
  {
    hide Xor;
    assert (s + [b])[..|s|] == s;
  }

  lemma Digits1(s: seq<u8>)
    requires Hash(s) == 0x811c9dc5
    ensures Hash(s + [0x31, 0x32, 0x33]) == 0x7238631b
  {
    hide Xor, Hash;
    XorQuads();
    XorZero(0x811c9d);
    XorNext(0x811c9d, 3, 0, 0x0, 0, 3, 0x811c9d, 3, 3);
    XorNext(0x811c9dc, 1, 1, 0x3, 0, 1, 0x811c9df, 1, 0);
    OneMore(s, 0x811c9dc5, 0x31, 0x811c9df4, 0x340ca71c);
    XorZero(0x340ca7);
    XorNext(0x340ca7, 0, 1, 0x0, 0, 3, 0x340ca7, 0, 2);
    XorNext(0x340ca71, 3, 0, 0x3, 0, 2, 0x340ca72, 3, 2);
    OneMore(s + [0x31], 0x340ca71c, 0x32, 0x340ca72e, 0x1deb2d6a);
    assert s + [0x31] + [0x32] == s + [0x31, 0x32];
    XorZero(0x1deb2d);
    XorNext(0x1deb2d, 1, 2, 0x0, 0, 3, 0x1deb2d, 1, 1);
    XorNext(0x1deb2d6, 2, 2, 0x3, 0, 3, 0x1deb2d5, 2, 1);
    OneMore(s + [0x31, 0x32], 0x1deb2d6a, 0x33, 0x1deb2d59, 0x7238631b);
    assert s + [0x31, 0x32] + [0x33] == s + [0x31, 0x32, 0x33];
  }

  lemma Digits4(s: seq<u8>)
    requires Hash(s) == 0x7238631b
    ensures Hash(s + [0x34, 0x35, 0x36]) == 0x9995b6aa
  {
    hide Xor, Hash;
    XorQuads();
    XorZero(0x723863);
    XorNext(0x723863, 0, 1, 0x0, 0, 3, 0x723863, 0, 2);
    XorNext(0x7238631, 2, 3, 0x3, 1, 0, 0x7238632, 3, 3);
    OneMore(s, 0x7238631b, 0x34, 0x7238632f, 0xfdc422fd);
    XorZero(0xfdc422);
    XorNext(0xfdc422, 3, 3, 0x0, 0, 3, 0xfdc422, 3, 0);
    XorNext(0xfdc422f, 3, 1, 0x3, 1, 1, 0xfdc422c, 2, 0);
    OneMore(s + [0x34], 0xfdc422fd, 0x35, 0xfdc422c8, 0x43c2c0d8);
    assert s + [0x34] + [0x35] == s + [0x34, 0x35];
    XorZero(0x43c2c0);
    XorNext(0x43c2c0, 3, 1, 0x0, 0, 3, 0x43c2c0, 3, 2);
    XorNext(0x43c2c0d, 2, 0, 0x3, 1, 2, 0x43c2c0e, 3, 2);
    OneMore(s + [0x34, 0x35], 0x43c2c0d8, 0x36, 0x43c2c0ee, 0x9995b6aa);
    assert s + [0x34, 0x35] + [0x36] == s + [0x34, 0x35, 0x36];
  }

  lemma Digits7(s: seq<u8>)
    requires Hash(s) == 0x9995b6aa
    ensures Hash(s + [0x37, 0x38, 0x39]) == 0xbb86b11c
  {
    hide Xor, Hash;
    XorQuads();
    XorZero(0x9995b6);
    XorNext(0x9995b6, 2, 2, 0x0, 0, 3, 0x9995b6, 2, 1);
    XorNext(0x9995b6a, 2, 2, 0x3, 1, 3, 0x9995b69, 3, 1);
    OneMore(s, 0x9995b6aa, 0x37, 0x9995b69d, 0x63ae7927);
    XorZero(0x63ae79);
    XorNext(0x63ae79, 0, 2, 0x0, 0, 3, 0x63ae79, 0, 1);
    XorNext(0x63ae792, 1, 3, 0x3, 2, 0, 0x63ae791, 3, 3);
    OneMore(s + [0x37], 0x63ae7927, 0x38, 0x63ae791f, 0x0aa8abcd);
    assert s + [0x37] + [0x38] == s + [0x37, 0x38];
    XorZero(0xaa8ab);
    XorNext(0xaa8ab, 3, 0, 0x0, 0, 3, 0xaa8ab, 3, 3);
    XorNext(0xaa8abc, 3, 1, 0x3, 2, 1, 0xaa8abf, 1, 0);
    OneMore(s + [0x37, 0x38], 0x0aa8abcd, 0x39, 0x0aa8abf4, 0xbb86b11c);
    assert s + [0x37, 0x38] + [0x39] == s + [0x37, 0x38, 0x39];
  }

  lemma KnownAnswer()
    ensures Hash([0x31, 0x32, 0x33, 0x34, 0x35, 0x36, 0x37, 0x38, 0x39]) == 0xbb86b11c
    ensures Hash([]) == 0x811c9dc5
  {
    HashNothing();
    hide Hash;
    Digits1([]);
    assert [] + [0x31, 0x32, 0x33] == [0x31, 0x32, 0x33];
    Digits4([0x31, 0x32, 0x33]);
    assert [0x31, 0x32, 0x33] + [0x34, 0x35, 0x36] == [0x31, 0x32, 0x33, 0x34, 0x35, 0x36];
    Digits7([0x31, 0x32, 0x33, 0x34, 0x35, 0x36]);
    assert [0x31, 0x32, 0x33, 0x34, 0x35, 0x36] + [0x37, 0x38, 0x39]
        == [0x31, 0x32, 0x33, 0x34, 0x35, 0x36, 0x37, 0x38, 0x39];
  }

  lemma HashNothing()
    ensures Hash([]) == 0x811c9dc5
  {
  }
}
