/** The published values of XXH64, seed 0, and words as numbers: they pin the constants, the rotations, the
order of bytes in a word and the order of the steps. */
module XxValues64 {
  import opened XxHash64
  import V = XxValues32

  // ---- words as numbers ------------------------------------------------------------------

  /** a as the lowest byte, and x above it. */
  function Below(a: Byte, x: U64): U64 {
    (a as U64) | (x << 8)
  }

  lemma ByteOver(a: Byte, x: U64)
    requires x < 0x100_0000_0000_0000
    ensures ((a as U64) | (x << 8)) as int == a as int + 0x100 * (x as int)
  {
  }

  lemma ByteBelow(a: Byte, x: U64)
    requires x < 0x100_0000_0000_0000
    ensures Below(a, x) as int == a as int + 0x100 * (x as int)
  {
    ByteOver(a, x);
    BelowIs(a, x);
  }

  lemma BelowIs(a: Byte, x: U64)
    ensures Below(a, x) == (a as U64) | (x << 8)
  {
  }

  lemma WideByte(a: Byte)
    ensures (a as U64) as int == a as int
  {
  }

  /** Bytes put together one below the other. */
  function Nested(b: seq<Byte>): U64 {
    if b == [] then 0 else Below(b[0], Nested(b[1..]))
  }

  function Eight(a: Byte, b: Byte, c: Byte, d: Byte, e: Byte, f: Byte, g: Byte, h: Byte): U64 {
    (a as U64) | ((b as U64) << 8) | ((c as U64) << 16) | ((d as U64) << 24)
    | (((e as U64) | ((f as U64) << 8) | ((g as U64) << 16) | ((h as U64) << 24)) << 32)
  }

  lemma NestedEight(a: Byte, b: Byte, c: Byte, d: Byte, e: Byte, f: Byte, g: Byte, h: Byte)
    ensures Eight(a, b, c, d, e, f, g, h) == Below(a, Below(b, Below(c, Below(d, Below(e, Below(f, Below(g, Below(h, 0))))))))
  {
  }

  lemma LongEight(b: seq<Byte>)
    requires |b| == 8
    ensures Long(b) == Eight(b[0], b[1], b[2], b[3], b[4], b[5], b[6], b[7])
  {
    var c, d := b[0..4], b[4..8];
    assert c[0] == b[0] && c[1] == b[1] && c[2] == b[2] && c[3] == b[3];
    assert d[0] == b[4] && d[1] == b[5] && d[2] == b[6] && d[3] == b[7];
  }

  lemma NestedFour(a: Byte, b: Byte, c: Byte, d: Byte)
    ensures (a as U64) | ((b as U64) << 8) | ((c as U64) << 16) | ((d as U64) << 24) == Below(a, Below(b, Below(c, Below(d, 0))))
  {
  }

  lemma {:induction false} NestedNumber(b: seq<Byte>)
    requires |b| <= 8
    ensures Nested(b) as int == V.Number(b) < Power(|b|)
  {
    if b != [] {
      NestedNumber(b[1..]);
      SmallPower(|b| - 1);
      Bounded(Nested(b[1..]));
      ByteBelow(b[0], Nested(b[1..]));
      ByteSmall(b[0]);
    } else {
      NoNumber();
    }
  }

  lemma NoNumber()
    ensures (0 as U64) as int == 0
  {
  }

  lemma ByteSmall(a: Byte)
    ensures 0 <= a as int < 0x100
  {
  }

  lemma Bounded(x: U64)
    requires x as int < 0x100_0000_0000_0000
    ensures x < 0x100_0000_0000_0000
  {
  }

  function Power(n: nat): nat {
    if n == 0 then 1 else 0x100 * Power(n - 1)
  }

  lemma SmallPower(n: nat)
    requires n <= 7
    ensures Power(n) <= 0x100_0000_0000_0000
  {
    assert Power(7) == 0x100_0000_0000_0000;
    PowerGrows(n, 7);
  }

  lemma NestedFrom(b: seq<Byte>, i: nat)
    requires i <= |b|
    ensures Nested(b[i..]) == if i == |b| then 0 else Below(b[i], Nested(b[i + 1..]))
  {
    assert i < |b| ==> b[i..][1..] == b[i + 1..];
  }

  /** Words and longs are read with the lowest byte first. */
  lemma WordValue(b: seq<Byte>)
    requires |b| == 4
    ensures Word(b) as int == V.Number(b)
  {
    hide Below;
    NestedNumber(b);
    NestedFrom(b, 0);
    NestedFrom(b, 1);
    NestedFrom(b, 2);
    NestedFrom(b, 3);
    NestedFrom(b, 4);
    assert b[0..] == b;
    NestedFour(b[0], b[1], b[2], b[3]);
  }

  lemma LongValue(b: seq<Byte>)
    requires |b| == 8
    ensures Long(b) as int == V.Number(b)
  {
    hide Below;
    NestedNumber(b);
    LongNested(b);
  }

  lemma LongNested(b: seq<Byte>)
    requires |b| == 8
    ensures Long(b) == Nested(b)
  {
    hide Below, Eight, Long;
    LongEight(b);
    NestedEight(b[0], b[1], b[2], b[3], b[4], b[5], b[6], b[7]);
    NestedTwice(b);
    NestedTwice(b[2..]);
    NestedTwice(b[4..]);
    NestedTwice(b[6..]);
    assert b[2..][2..] == b[4..] && b[4..][2..] == b[6..] && b[6..][2..] == [];
  }

  lemma NestedTwice(b: seq<Byte>)
    requires |b| >= 2
    ensures Nested(b) == Below(b[0], Below(b[1], Nested(b[2..])))
  {
    hide Below;
    assert b[1..][1..] == b[2..];
  }

  lemma {:induction false} PowerGrows(n: nat, m: nat)
    requires n <= m
    ensures Power(n) <= Power(m)
  {
    if n < m {
      PowerGrows(n, m - 1);
    }
  }

  // ---- published values ------------------------------------------------------------------

  lemma ShortHash(s: seq<Byte>)
    requires |s| < 32
    ensures Hash(s, 0) == Avalanche(Tail(Add(PRIME5, Low64(|s|)), s))
  {
    hide Avalanche, Tail;
    assert s[0..] == s;
    assert Add(0, PRIME5) == PRIME5;
  }

  lemma ByteTail(h: U64, b: Byte, s: seq<Byte>)
    requires |s| < 3
    ensures Tail(h, [b] + s) == Tail(MixByte(h, b), s) && Tail(h, []) == h
  {
    assert ([b] + s)[1..] == s;
  }

  lemma WordTail(h: U64, w: seq<Byte>, s: seq<Byte>)
    requires |w| == 4 && |s| < 4
    ensures Tail(h, w + s) == Tail(MixWord(h, Word(w)), s)
  {
    assert (w + s)[..4] == w && (w + s)[4..] == s;
  }

  lemma ThreeBytes(h: U64, a: Byte, b: Byte, c: Byte)
    ensures Tail(h, [a, b, c]) == MixByte(MixByte(MixByte(h, a), b), c)
  {
    hide Tail, MixByte;
    assert [a, b, c] == [a] + [b, c] && [b, c] == [b] + [c] && [c] == [c] + [];
    ByteTail(h, a, [b, c]);
    ByteTail(MixByte(h, a), b, [c]);
    ByteTail(MixByte(MixByte(h, a), b), c, []);
    ByteTail(MixByte(MixByte(MixByte(h, a), b), c), c, []);
  }

  /** The hash of nothing. */
  lemma EmptyHash()
    ensures Hash([], 0) == 0xEF46DB3751D8E999
  {
    hide Hash;
    ShortHash([]);
    assert Low64(0) == 0 && Add(PRIME5, 0) == PRIME5 && Tail(PRIME5, []) == PRIME5;
    assert Avalanche(PRIME5) == 0xEF46DB3751D8E999;
  }

  /** The same with a seed. */
  lemma SeededHash()
    ensures Hash([], 2654435761) == 0xAC75FDA2929B17EF
  {
    hide Hash, Add, Avalanche;
    var s: seq<Byte> := [];
    SeededShort(2654435761);
    SeededLength();
    SeededScrambled();
  }

  lemma SeededShort(seed: U64)
    ensures Hash([], seed) == Avalanche(Add(Add(seed, PRIME5), Low64(0)))
  {
    hide Avalanche, Add;
    var s: seq<Byte> := [];
    assert s[0..] == s && Tail(Add(Add(seed, PRIME5), Low64(0)), s) == Add(Add(seed, PRIME5), Low64(0));
  }

  lemma SeededLength()
    ensures Add(Add(2654435761, PRIME5), Low64(0)) == 0x27D4EB2FB48DE176
  {
    assert Low64(0) == 0;
  }

  lemma SeededScrambled()
    ensures Avalanche(0x27D4EB2FB48DE176) == 0xAC75FDA2929B17EF
  {
  }

  /** The accumulators start from the seed. */
  lemma SeededStart()
    ensures Start(2654435761) == Lanes(0x60EA27EF4BF82F87, 0xC2B2AE3DC60C6500, 0x000000009E3779B1, 0x61C8864F184BAF2A)
  {
  }

  lemma AbcBytes()
    ensures Tail(0x27D4EB2F165667C8, [0x61, 0x62, 0x63]) == 0xE87A46F8B9A4C39E
  {
    hide Tail, MixByte;
    ThreeBytes(0x27D4EB2F165667C8, 0x61, 0x62, 0x63);
    AbcMix1();
    AbcMix2();
    AbcMix3();
  }

  lemma AbcMix1()
    ensures MixByte(0x27D4EB2F165667C8, 0x61) == 0x0E6D11BDC91F0215
  {
    assert (0x61 as Byte) as U64 == 0x61 && (0x61 as U64) * PRIME5 == 0x17AD1CD776BD51A5;
    assert 0x27D4EB2F165667C8 as U64 ^ 0x17AD1CD776BD51A5 == 0x3079F7F860EB366D;
    assert Rotl(0x3079F7F860EB366D, 11) == 0xCFBFC30759B36983;
    assert 0xCFBFC30759B36983 as U64 * PRIME1 == 0x0E6D11BDC91F0215;
  }

  lemma AbcMix2()
    ensures MixByte(0x0E6D11BDC91F0215, 0x62) == 0x791983E9AB307069
  {
    assert (0x62 as Byte) as U64 == 0x62 && (0x62 as U64) * PRIME5 == 0x3F8208068D13B96A;
    assert 0x0E6D11BDC91F0215 as U64 ^ 0x3F8208068D13B96A == 0x31EF19BB440CBB7F;
    assert Rotl(0x31EF19BB440CBB7F, 11) == 0x78CDDA2065DBF98F;
    assert 0x78CDDA2065DBF98F as U64 * PRIME1 == 0x791983E9AB307069;
  }

  lemma AbcMix3()
    ensures MixByte(0x791983E9AB307069, 0x63) == 0xE87A46F8B9A4C39E
  {
    assert (0x63 as Byte) as U64 == 0x63 && (0x63 as U64) * PRIME5 == 0x6756F335A36A212F;
    assert 0x791983E9AB307069 as U64 ^ 0x6756F335A36A212F == 0x1E4F70DC085A5146;
    assert Rotl(0x1E4F70DC085A5146, 11) == 0x7B86E042D28A30F2;
    assert 0x7B86E042D28A30F2 as U64 * PRIME1 == 0xE87A46F8B9A4C39E;
  }

  /** The hash of "abc". */
  lemma AbcHash()
    ensures Hash([0x61, 0x62, 0x63], 0) == 0x44BC2CF5AD770999
  {
    hide Hash, Tail, Avalanche, Add;
    ShortHash([0x61, 0x62, 0x63]);
    AbcLength();
    AbcBytes();
    AbcScrambled();
  }

  lemma AbcLength()
    ensures Add(PRIME5, Low64(3)) == 0x27D4EB2F165667C8
  {
    assert Low64(3) == 3;
  }

  lemma AbcScrambled()
    ensures Avalanche(0xE87A46F8B9A4C39E) == 0x44BC2CF5AD770999
  {
  }

  /** "Nobody inspects the spammish repetition", word by word. */
  const W1: seq<Byte> := [0x4E, 0x6F, 0x62, 0x6F, 0x64, 0x79, 0x20, 0x69]
  const W2: seq<Byte> := [0x6E, 0x73, 0x70, 0x65, 0x63, 0x74, 0x73, 0x20]
  const W3: seq<Byte> := [0x74, 0x68, 0x65, 0x20, 0x73, 0x70, 0x61, 0x6D]
  const W4: seq<Byte> := [0x6D, 0x69, 0x73, 0x68, 0x20, 0x72, 0x65, 0x70]
  const LAST: seq<Byte> := [0x65, 0x74, 0x69, 0x74]
  const ION: seq<Byte> := [0x69, 0x6F, 0x6E]

  lemma StripeOf(v: Lanes, a: seq<Byte>, b: seq<Byte>, c: seq<Byte>, d: seq<Byte>)
    requires |a| == |b| == |c| == |d| == 8
    ensures Stripe(v, a + b + c + d) == Lanes(Round(v.v1, Long(a)), Round(v.v2, Long(b)), Round(v.v3, Long(c)), Round(v.v4, Long(d)))
  {
    hide Round, Long;
    var s := a + b + c + d;
    assert s[0..8] == a && s[8..16] == b && s[16..24] == c && s[24..32] == d;
  }

  lemma AllStripes(v: Lanes, a: seq<Byte>, c: seq<Byte>)
    requires |a| == 32 && |c| < 32
    ensures Stripes(v, a + c) == Stripe(v, a)
  {
    hide Stripe;
    var s := a + c;
    assert s[..32] == a && s[32..] == c;
  }

  lemma W1Long()
    ensures Long(W1) == 0x692079646F626F4E
  {
    var b := W1;
    assert b[0..4] == [0x4E, 0x6F, 0x62, 0x6F] && b[4..8] == [0x64, 0x79, 0x20, 0x69];
    assert Word([0x4E, 0x6F, 0x62, 0x6F]) == 0x000000006F626F4E && Word([0x64, 0x79, 0x20, 0x69]) == 0x0000000069207964;
  }

  lemma W2Long()
    ensures Long(W2) == 0x207374636570736E
  {
    var b := W2;
    assert b[0..4] == [0x6E, 0x73, 0x70, 0x65] && b[4..8] == [0x63, 0x74, 0x73, 0x20];
    assert Word([0x6E, 0x73, 0x70, 0x65]) == 0x000000006570736E && Word([0x63, 0x74, 0x73, 0x20]) == 0x0000000020737463;
  }

  lemma W3Long()
    ensures Long(W3) == 0x6D61707320656874
  {
    var b := W3;
    assert b[0..4] == [0x74, 0x68, 0x65, 0x20] && b[4..8] == [0x73, 0x70, 0x61, 0x6D];
    assert Word([0x74, 0x68, 0x65, 0x20]) == 0x0000000020656874 && Word([0x73, 0x70, 0x61, 0x6D]) == 0x000000006D617073;
  }

  lemma W4Long()
    ensures Long(W4) == 0x706572206873696D
  {
    var b := W4;
    assert b[0..4] == [0x6D, 0x69, 0x73, 0x68] && b[4..8] == [0x20, 0x72, 0x65, 0x70];
    assert Word([0x6D, 0x69, 0x73, 0x68]) == 0x000000006873696D && Word([0x20, 0x72, 0x65, 0x70]) == 0x0000000070657220;
  }

  lemma Stripe1()
    ensures Stripe(Lanes(0x60EA27EEADC0B5D6, 0xC2B2AE3D27D4EB4F, 0x0000000000000000, 0x61C8864E7A143579), W1 + W2 + W3 + W4) == Lanes(0x37245127A4067E4B, 0x1B302B0A818F92CF, 0xCD62D843D0580FCA, 0x1C16E43EF2142A4A)
  {
    hide Stripe, Round, Long;
    StripeOf(Lanes(0x60EA27EEADC0B5D6, 0xC2B2AE3D27D4EB4F, 0x0000000000000000, 0x61C8864E7A143579), W1, W2, W3, W4);
    W1Long();
    W2Long();
    W3Long();
    W4Long();
    W1Round();
    W2Round();
    W3Round();
    W4Round();
  }

  lemma W1Round()
    ensures Round(0x60EA27EEADC0B5D6, 0x692079646F626F4E) == 0x37245127A4067E4B
  {
    assert 0x692079646F626F4E as U64 * PRIME2 == 0x06F06E4CCA24F312;
    assert 0x60EA27EEADC0B5D6 as U64 + 0x06F06E4CCA24F312 == 0x67DA963B77E5A8E8;
    assert Rotl(0x67DA963B77E5A8E8, 31) == 0xBBF2D47433ED4B1D;
    assert 0xBBF2D47433ED4B1D as U64 * PRIME1 == 0x37245127A4067E4B;
  }

  lemma W2Round()
    ensures Round(0xC2B2AE3D27D4EB4F, 0x207374636570736E) == 0x1B302B0A818F92CF
  {
    assert 0x207374636570736E as U64 * PRIME2 == 0xBEF890B5E0C198F2;
    assert 0xC2B2AE3D27D4EB4F as U64 + 0xBEF890B5E0C198F2 == 0x81AB3EF308968441;
    assert Rotl(0x81AB3EF308968441, 31) == 0x844B4220C0D59F79;
    assert 0x844B4220C0D59F79 as U64 * PRIME1 == 0x1B302B0A818F92CF;
  }

  lemma W3Round()
    ensures Round(0x0000000000000000, 0x6D61707320656874) == 0xCD62D843D0580FCA
  {
    assert 0x6D61707320656874 as U64 * PRIME2 == 0x0A6264CC423DB7CC;
    assert 0x0000000000000000 as U64 + 0x0A6264CC423DB7CC == 0x0A6264CC423DB7CC;
    assert Rotl(0x0A6264CC423DB7CC, 31) == 0x211EDBE605313266;
    assert 0x211EDBE605313266 as U64 * PRIME1 == 0xCD62D843D0580FCA;
  }

  lemma W4Round()
    ensures Round(0x61C8864E7A143579, 0x706572206873696D) == 0x1C16E43EF2142A4A
  {
    assert 0x706572206873696D as U64 * PRIME2 == 0x7EC4417E16A897A3;
    assert 0x61C8864E7A143579 as U64 + 0x7EC4417E16A897A3 == 0xE08CC7CC90BCCD1C;
    assert Rotl(0xE08CC7CC90BCCD1C, 31) == 0x485E668E704663E6;
    assert 0x485E668E704663E6 as U64 * PRIME1 == 0x1C16E43EF2142A4A;
  }

  lemma NobodyStripes()
    ensures Stripes(Start(0), W1 + W2 + W3 + W4 + (LAST + ION)) == Lanes(0x37245127A4067E4B, 0x1B302B0A818F92CF, 0xCD62D843D0580FCA, 0x1C16E43EF2142A4A)
  {
    hide Stripe, Stripes;
    assert Start(0) == Lanes(0x60EA27EEADC0B5D6, 0xC2B2AE3D27D4EB4F, 0x0000000000000000, 0x61C8864E7A143579);
    AllStripes(Start(0), W1 + W2 + W3 + W4, LAST + ION);
    Stripe1();
  }

  lemma NobodyMerge()
    ensures Merge(Lanes(0x37245127A4067E4B, 0x1B302B0A818F92CF, 0xCD62D843D0580FCA, 0x1C16E43EF2142A4A)) == 0x84F22C421A11A8B5
  {
    assert Rotl(0x37245127A4067E4B, 1) + Rotl(0x1B302B0A818F92CF, 7) + Rotl(0xCD62D843D0580FCA, 12) + Rotl(0x1C16E43EF2142A4A, 18) == 0xC4DE2CE639FB8154;
    assert MergeOne(0xC4DE2CE639FB8154, 0x37245127A4067E4B) == 0x30D40DDD00AEA144;
    assert MergeOne(0x30D40DDD00AEA144, 0x1B302B0A818F92CF) == 0xE5A1F095BF498698;
    assert MergeOne(0xE5A1F095BF498698, 0xCD62D843D0580FCA) == 0xF9CEE721E748096D;
    assert MergeOne(0xF9CEE721E748096D, 0x1C16E43EF2142A4A) == 0x84F22C421A11A8B5;
  }

  lemma NobodyBytes()
    ensures Tail(0x9FCA0F5D0AAA110F, [0x69, 0x6F, 0x6E]) == 0x1D0A47483B37CC24
  {
    hide Tail, MixByte;
    ThreeBytes(0x9FCA0F5D0AAA110F, 0x69, 0x6F, 0x6E);
    NobodyMix1();
    NobodyMix2();
    NobodyMix3();
  }

  lemma NobodyMix1()
    ensures MixByte(0x9FCA0F5D0AAA110F, 0x69) == 0x769671546F21BA14
  {
    assert (0x69 as Byte) as U64 == 0x69 && (0x69 as U64) * PRIME5 == 0x5654765029708FCD;
    assert 0x9FCA0F5D0AAA110F as U64 ^ 0x5654765029708FCD == 0xC99E790D23DA9EC2;
    assert Rotl(0xC99E790D23DA9EC2, 11) == 0xF3C8691ED4F6164C;
    assert 0xF3C8691ED4F6164C as U64 * PRIME1 == 0x769671546F21BA14;
  }

  lemma NobodyMix2()
    ensures MixByte(0x769671546F21BA14, 0x6F) == 0xEAE9B643C5F94E52
  {
    assert (0x6F as Byte) as U64 == 0x6F && (0x6F as U64) * PRIME5 == 0x4551F96AAF76FE6B;
    assert 0x769671546F21BA14 as U64 ^ 0x4551F96AAF76FE6B == 0x33C7883EC057447F;
    assert Rotl(0x33C7883EC057447F, 11) == 0x3C41F602BA23F99E;
    assert 0x3C41F602BA23F99E as U64 * PRIME1 == 0xEAE9B643C5F94E52;
  }

  lemma NobodyMix3()
    ensures MixByte(0xEAE9B643C5F94E52, 0x6E) == 0x1D0A47483B37CC24
  {
    assert (0x6E as Byte) as U64 == 0x6E && (0x6E as U64) * PRIME5 == 0x1D7D0E3B992096A6;
    assert 0xEAE9B643C5F94E52 as U64 ^ 0x1D7D0E3B992096A6 == 0xF794B8785CD9D8F4;
    assert Rotl(0xF794B8785CD9D8F4, 11) == 0xA5C3C2E6CEC7A7BC;
    assert 0xA5C3C2E6CEC7A7BC as U64 * PRIME1 == 0x1D0A47483B37CC24;
  }

  lemma NobodyTail()
    ensures Tail(0x84F22C421A11A8DC, LAST + ION) == 0x1D0A47483B37CC24
  {
    hide Tail, MixWord;
    WordTail(0x84F22C421A11A8DC, LAST, ION);
    assert Word(LAST) == 0x0000000074697465;
    NobodyMixed();
    NobodyBytes();
  }

  lemma NobodyMixed()
    ensures MixWord(0x84F22C421A11A8DC, 0x0000000074697465) == 0x9FCA0F5D0AAA110F
  {
    assert 0x0000000074697465 as U64 * PRIME1 == 0xE9863933EB2B1343;
    assert 0x84F22C421A11A8DC as U64 ^ 0xE9863933EB2B1343 == 0x6D741571F13ABB9F;
    assert Rotl(0x6D741571F13ABB9F, 23) == 0xB8F89D5DCFB6BA0A;
    assert 0xB8F89D5DCFB6BA0A as U64 * PRIME2 == 0x8973A7AB6C729716 && 0x8973A7AB6C729716 as U64 + PRIME3 == 0x9FCA0F5D0AAA110F;
  }

  /** The hash of "Nobody inspects the spammish repetition": a stripe, a word and three bytes. */
  lemma NobodyHash()
    ensures Hash(W1 + W2 + W3 + W4 + (LAST + ION), 0) == 0xFBCEA83C8A378BF1
  {
    hide Tail, Stripes, Merge, Avalanche, Add;
    var s := W1 + W2 + W3 + W4 + (LAST + ION);
    NobodyStripes();
    NobodyMerge();
    assert |s| == 39 && s[32..] == LAST + ION;
    NobodyLength();
    NobodyTail();
    NobodyScrambled();
  }

  lemma NobodyLength()
    ensures Add(0x84F22C421A11A8B5, Low64(39)) == 0x84F22C421A11A8DC
  {
    assert Low64(39) == 39;
  }

  lemma NobodyScrambled()
    ensures Avalanche(0x1D0A47483B37CC24) == 0xFBCEA83C8A378BF1
  {
  }
}
