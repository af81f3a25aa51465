/** The published values of XXH32, seed 0, and words as numbers: they pin the constants, the rotations, the
order of bytes in a word and the order of the steps. */
module XxValues32 {
  import opened XxHash32

  // ---- words as numbers ------------------------------------------------------------------

  /** The number that bytes stand for, the lowest first. */
  function Number(b: seq<Byte>): nat {
    if b == [] then 0 else b[0] as int + 0x100 * Number(b[1..])
  }

  /** a as the lowest byte, and x above it. */
  function Below(a: Byte, x: U32): U32 {
    (a as U32) | (x << 8)
  }

  lemma ByteOver(a: Byte, x: U32)
    requires x < 0x100_0000
    ensures ((a as U32) | (x << 8)) as int == a as int + 0x100 * (x as int)
  {
  }

  lemma ByteBelow(a: Byte, x: U32)
    requires x < 0x100_0000
    ensures Below(a, x) as int == a as int + 0x100 * (x as int)
  {
    ByteOver(a, x);
    BelowIs(a, x);
  }

  lemma BelowIs(a: Byte, x: U32)
    ensures Below(a, x) == (a as U32) | (x << 8)
  {
  }

  lemma WideByte(a: Byte)
    ensures Wide(a) as int == a as int
  {
  }

  lemma JoinNested(a: Byte, b: Byte, c: Byte, d: Byte)
    ensures Join(a, b, c, d) == Below(a, Below(b, Below(c, Wide(d))))
    ensures Wide(d) < 0x100_0000 && Below(c, Wide(d)) < 0x100_0000 && Below(b, Below(c, Wide(d))) < 0x100_0000
  {
  }

  lemma NumberFour(b: seq<Byte>)
    requires |b| == 4
    ensures Number(b) == b[0] as int + 0x100 * (b[1] as int + 0x100 * (b[2] as int + 0x100 * b[3] as int))
  {
    var c, d, e := b[1..], b[2..], b[3..];
    assert c[1..] == d && d[1..] == e && e[1..] == [];
    assert Number(e) == b[3] as int;
    assert Number(d) == b[2] as int + 0x100 * b[3] as int;
    assert Number(c) == b[1] as int + 0x100 * (b[2] as int + 0x100 * b[3] as int);
  }

  lemma JoinValue(a: Byte, b: Byte, c: Byte, d: Byte)
    ensures Join(a, b, c, d) as int == a as int + 0x100 * (b as int + 0x100 * (c as int + 0x100 * d as int))
  {
    hide Join, Below, Wide;
    JoinNested(a, b, c, d);
    WideByte(d);
    ByteBelow(c, Wide(d));
    ByteBelow(b, Below(c, Wide(d)));
    ByteBelow(a, Below(b, Below(c, Wide(d))));
  }

  /** Words are read with the lowest byte first. */
  lemma WordValue(b: seq<Byte>)
    requires |b| == 4
    ensures Word(b) as int == Number(b)
  {
    hide Join;
    NumberFour(b);
    JoinValue(b[0], b[1], b[2], b[3]);
  }

  // ---- published values ------------------------------------------------------------------

  lemma ShortHash(s: seq<Byte>)
    requires |s| < 16
    ensures Hash(s, 0) == Avalanche(Tail(Add(PRIME5, Low32(|s|)), s))
  {
    hide Avalanche, Tail;
    assert s[0..] == s;
    assert Add(0, PRIME5) == PRIME5;
  }

  lemma ByteTail(h: U32, b: Byte, s: seq<Byte>)
    requires |s| < 3
    ensures Tail(h, [b] + s) == Tail(MixByte(h, b), s) && Tail(h, []) == h
  {
    assert ([b] + s)[1..] == s;
  }

  lemma WordTail(h: U32, w: seq<Byte>, s: seq<Byte>)
    requires |w| == 4 && |s| < 4
    ensures Tail(h, w + s) == Tail(MixWord(h, Word(w)), s)
  {
    assert (w + s)[..4] == w && (w + s)[4..] == s;
  }

  lemma ThreeBytes(h: U32, a: Byte, b: Byte, c: Byte)
    ensures Tail(h, [a, b, c]) == MixByte(MixByte(MixByte(h, a), b), c)
  {
    hide Tail, MixByte;
    assert [a, b, c] == [a] + [b, c] && [b, c] == [b] + [c] && [c] == [c] + [];
    ByteTail(h, a, [b, c]);
    ByteTail(MixByte(h, a), b, [c]);
    ByteTail(MixByte(MixByte(h, a), b), c, []);
    ByteTail(MixByte(MixByte(MixByte(h, a), b), c), c, []);
  }

  /** The hash of nothing. */
  lemma EmptyHash()
    ensures Hash([], 0) == 0x02CC5D05
  {
    hide Hash;
    ShortHash([]);
    assert Low32(0) == 0 && Add(PRIME5, 0) == PRIME5 && Tail(PRIME5, []) == PRIME5;
    assert Avalanche(PRIME5) == 0x02CC5D05;
  }

  /** The same with a seed. */
  lemma SeededHash()
    ensures Hash([], 2654435761) == 0x36B78AE7
  {
    hide Hash, Add, Avalanche;
    var s: seq<Byte> := [];
    SeededShort(2654435761);
    SeededLength();
    SeededScrambled();
  }

  lemma SeededShort(seed: U32)
    ensures Hash([], seed) == Avalanche(Add(Add(seed, PRIME5), Low32(0)))
  {
    hide Avalanche, Add;
    var s: seq<Byte> := [];
    assert s[0..] == s && Tail(Add(Add(seed, PRIME5), Low32(0)), s) == Add(Add(seed, PRIME5), Low32(0));
  }

  lemma SeededLength()
    ensures Add(Add(2654435761, PRIME5), Low32(0)) == 0xB48DE162
  {
    assert Low32(0) == 0;
  }

  lemma SeededScrambled()
    ensures Avalanche(0xB48DE162) == 0x36B78AE7
  {
  }

  /** The accumulators start from the seed. */
  lemma SeededStart()
    ensures Start(2654435761) == Lanes(0xC25ABDD9, 0x24234428, 0x9E3779B1, 0x00000000)
  {
  }

  lemma AbcBytes()
    ensures Tail(0x165667B4, [0x61, 0x62, 0x63]) == 0x760A1E67
  {
    hide Tail, MixByte;
    ThreeBytes(0x165667B4, 0x61, 0x62, 0x63);
    AbcMix1();
    AbcMix2();
    AbcMix3();
  }

  lemma AbcMix1()
    ensures MixByte(0x165667B4, 0x61) == 0xDCA1DBE8
  {
  }

  lemma AbcMix2()
    ensures MixByte(0xDCA1DBE8, 0x62) == 0x4F80FD3D
  {
  }

  lemma AbcMix3()
    ensures MixByte(0x4F80FD3D, 0x63) == 0x760A1E67
  {
  }

  /** The hash of "abc". */
  lemma AbcHash()
    ensures Hash([0x61, 0x62, 0x63], 0) == 0x32D153FF
  {
    hide Hash, Tail, Avalanche, Add;
    ShortHash([0x61, 0x62, 0x63]);
    AbcLength();
    AbcBytes();
    AbcScrambled();
  }

  lemma AbcLength()
    ensures Add(PRIME5, Low32(3)) == 0x165667B4
  {
    assert Low32(3) == 3;
  }

  lemma AbcScrambled()
    ensures Avalanche(0x760A1E67) == 0x32D153FF
  {
  }

  /** "Nobody inspects the spammish repetition", word by word. */
  const W1: seq<Byte> := [0x4E, 0x6F, 0x62, 0x6F]
  const W2: seq<Byte> := [0x64, 0x79, 0x20, 0x69]
  const W3: seq<Byte> := [0x6E, 0x73, 0x70, 0x65]
  const W4: seq<Byte> := [0x63, 0x74, 0x73, 0x20]
  const W5: seq<Byte> := [0x74, 0x68, 0x65, 0x20]
  const W6: seq<Byte> := [0x73, 0x70, 0x61, 0x6D]
  const W7: seq<Byte> := [0x6D, 0x69, 0x73, 0x68]
  const W8: seq<Byte> := [0x20, 0x72, 0x65, 0x70]
  const LAST: seq<Byte> := [0x65, 0x74, 0x69, 0x74]
  const ION: seq<Byte> := [0x69, 0x6F, 0x6E]

  lemma StripeOf(v: Lanes, a: seq<Byte>, b: seq<Byte>, c: seq<Byte>, d: seq<Byte>)
    requires |a| == |b| == |c| == |d| == 4
    ensures Stripe(v, a + b + c + d) == Lanes(Round(v.v1, Word(a)), Round(v.v2, Word(b)), Round(v.v3, Word(c)), Round(v.v4, Word(d)))
  {
    hide Round, Word;
    var s := a + b + c + d;
    assert s[0..4] == a && s[4..8] == b && s[8..12] == c && s[12..16] == d;
  }

  lemma AllStripes(v: Lanes, a: seq<Byte>, b: seq<Byte>, c: seq<Byte>)
    requires |a| == |b| == 16 && |c| < 16
    ensures Stripes(v, a + b + c) == Stripe(Stripe(v, a), b)
  {
    hide Stripe;
    var s := a + b + c;
    assert s[..16] == a && s[16..] == b + c && (b + c)[..16] == b && (b + c)[16..] == c;
    var w := Stripe(Stripe(v, a), b);
    assert Stripes(w, c) == w;
    assert Stripes(Stripe(v, a), b + c) == Stripes(w, c);
  }

  lemma W1Word()
    ensures Word(W1) == 0x6F626F4E
  {
  }

  lemma W2Word()
    ensures Word(W2) == 0x69207964
  {
  }

  lemma W3Word()
    ensures Word(W3) == 0x6570736E
  {
  }

  lemma W4Word()
    ensures Word(W4) == 0x20737463
  {
  }

  lemma W5Word()
    ensures Word(W5) == 0x20656874
  {
  }

  lemma W6Word()
    ensures Word(W6) == 0x6D617073
  {
  }

  lemma W7Word()
    ensures Word(W7) == 0x6873696D
  {
  }

  lemma W8Word()
    ensures Word(W8) == 0x70657220
  {
  }

  lemma Stripe1()
    ensures Stripe(Lanes(0x24234428, 0x85EBCA77, 0x00000000, 0x61C8864F), W1 + W2 + W3 + W4) == Lanes(0x046A700A, 0xBFADF8E3, 0x5B32B4AA, 0x137E5555)
  {
    hide Stripe, Round, Word;
    StripeOf(Lanes(0x24234428, 0x85EBCA77, 0x00000000, 0x61C8864F), W1, W2, W3, W4);
    W1Word();
    W2Word();
    W3Word();
    W4Word();
    W1Round();
    W2Round();
    W3Round();
    W4Round();
  }

  lemma W1Round()
    ensures Round(0x24234428, 0x6F626F4E) == 0x046A700A
  {
  }

  lemma W2Round()
    ensures Round(0x85EBCA77, 0x69207964) == 0xBFADF8E3
  {
  }

  lemma W3Round()
    ensures Round(0x00000000, 0x6570736E) == 0x5B32B4AA
  {
  }

  lemma W4Round()
    ensures Round(0x61C8864F, 0x20737463) == 0x137E5555
  {
  }

  lemma Stripe2()
    ensures Stripe(Lanes(0x046A700A, 0xBFADF8E3, 0x5B32B4AA, 0x137E5555), W5 + W6 + W7 + W8) == Lanes(0x719A836E, 0x514C1DE8, 0x97FA4BA2, 0x242A97A2)
  {
    hide Stripe, Round, Word;
    StripeOf(Lanes(0x046A700A, 0xBFADF8E3, 0x5B32B4AA, 0x137E5555), W5, W6, W7, W8);
    W5Word();
    W6Word();
    W7Word();
    W8Word();
    W5Round();
    W6Round();
    W7Round();
    W8Round();
  }

  lemma W5Round()
    ensures Round(0x046A700A, 0x20656874) == 0x719A836E
  {
  }

  lemma W6Round()
    ensures Round(0xBFADF8E3, 0x6D617073) == 0x514C1DE8
  {
  }

  lemma W7Round()
    ensures Round(0x5B32B4AA, 0x6873696D) == 0x97FA4BA2
  {
  }

  lemma W8Round()
    ensures Round(0x137E5555, 0x70657220) == 0x242A97A2
  {
  }

  lemma NobodyStripes()
    ensures Stripes(Start(0), W1 + W2 + W3 + W4 + (W5 + W6 + W7 + W8) + (LAST + ION)) == Lanes(0x719A836E, 0x514C1DE8, 0x97FA4BA2, 0x242A97A2)
  {
    hide Stripe, Stripes;
    assert Start(0) == Lanes(0x24234428, 0x85EBCA77, 0x00000000, 0x61C8864F);
    AllStripes(Start(0), W1 + W2 + W3 + W4, W5 + W6 + W7 + W8, LAST + ION);
    Stripe1();
    Stripe2();
  }

  lemma NobodyMerge()
    ensures Merge(Lanes(0x719A836E, 0x514C1DE8, 0x97FA4BA2, 0x242A97A2)) == 0x8C86B52D
  {
  }

  lemma NobodyBytes()
    ensures Tail(0x09B51544, [0x69, 0x6F, 0x6E]) == 0xB3A7011B
  {
    hide Tail, MixByte;
    ThreeBytes(0x09B51544, 0x69, 0x6F, 0x6E);
    NobodyMix1();
    NobodyMix2();
    NobodyMix3();
  }

  lemma NobodyMix1()
    ensures MixByte(0x09B51544, 0x69) == 0xCDEFD3C9
  {
  }

  lemma NobodyMix2()
    ensures MixByte(0xCDEFD3C9, 0x6F) == 0x3852087B
  {
  }

  lemma NobodyMix3()
    ensures MixByte(0x3852087B, 0x6E) == 0xB3A7011B
  {
  }

  lemma NobodyTail()
    ensures Tail(0x8C86B554, LAST + ION) == 0xB3A7011B
  {
    hide Tail, MixWord;
    WordTail(0x8C86B554, LAST, ION);
    assert Word(LAST) == 0x74697465;
    NobodyMixed();
    NobodyBytes();
  }

  lemma NobodyMixed()
    ensures MixWord(0x8C86B554, 0x74697465) == 0x09B51544
  {
  }

  /** The hash of "Nobody inspects the spammish repetition": two stripes, a word and three bytes. */
  lemma NobodyHash()
    ensures Hash(W1 + W2 + W3 + W4 + (W5 + W6 + W7 + W8) + (LAST + ION), 0) == 0xE2293B2F
  {
    hide Tail, Stripes, Merge, Avalanche, Add;
    var s := W1 + W2 + W3 + W4 + (W5 + W6 + W7 + W8) + (LAST + ION);
    NobodyStripes();
    NobodyMerge();
    assert |s| == 39 && s[32..] == LAST + ION;
    NobodyLength();
    NobodyTail();
    NobodyScrambled();
  }

  lemma NobodyLength()
    ensures Add(0x8C86B52D, Low32(39)) == 0x8C86B554
  {
    assert Low32(39) == 39;
  }

  lemma NobodyScrambled()
    ensures Avalanche(0xB3A7011B) == 0xE2293B2F
  {
  }
}
