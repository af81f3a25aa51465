/** XXH32 (src/hash/xxhash.c): the one-shot hash, the buffering form fed in pieces, and why two
inputs that differ in one word never collide.  Arithmetic is that of 32-bit words. */
module XxHash32 {
  type Byte = bv8
  type U32 = bv32

  // ---- steps on words --------------------------------------------------------------------

  // * PRIME32_1
  function Times1(x: U32): U32 { x * 2654435761 }

  // * PRIME32_2
  function Times2(x: U32): U32 { x * 2246822519 }

  // * PRIME32_3
  function Times3(x: U32): U32 { x * 3266489917 }

  // * PRIME32_4
  function Times4(x: U32): U32 { x * 668265263 }

  // * PRIME32_5
  function Times5(x: U32): U32 { x * 374761393 }

  function Rotl1(x: U32): U32 { (x << 1) | (x >> 31) }

  function Rotl7(x: U32): U32 { (x << 7) | (x >> 25) }

  function Rotl11(x: U32): U32 { (x << 11) | (x >> 21) }

  function Rotl12(x: U32): U32 { (x << 12) | (x >> 20) }

  function Rotl13(x: U32): U32 { (x << 13) | (x >> 19) }

  function Rotl17(x: U32): U32 { (x << 17) | (x >> 15) }

  function Rotl18(x: U32): U32 { (x << 18) | (x >> 14) }

  function Add(x: U32, y: U32): U32 { x + y }

  function Xor(x: U32, y: U32): U32 { x ^ y }

  function Word(b: seq<Byte>): U32
    requires |b| == 4
  {
    Join(b[0], b[1], b[2], b[3])
  }

  function Join(a: Byte, b: Byte, c: Byte, d: Byte): U32 {
    (a as U32) | ((b as U32) << 8) | ((c as U32) << 16) | ((d as U32) << 24)
  }

  function Round(v: U32, w: U32): U32 {
    Times1(Rotl13(Add(v, Times2(w))))
  }

  function MixWord(h: U32, w: U32): U32 {
    Times4(Rotl17(Add(h, Times3(w))))
  }

  function Wide(b: Byte): U32 { b as U32 }

  function MixByte(h: U32, b: Byte): U32 {
    Times1(Rotl11(Add(h, Times5(Wide(b)))))
  }

  function Shr15(x: U32): U32 { x >> 15 }

  function Fold15(h: U32): U32 { Xor(h, Shr15(h)) }

  function Shr13(x: U32): U32 { x >> 13 }

  function Fold13(h: U32): U32 { Xor(h, Shr13(h)) }

  function Shr16(x: U32): U32 { x >> 16 }

  function Fold16(h: U32): U32 { Xor(h, Shr16(h)) }

  function Avalanche(h: U32): U32 {
    Fold16(Times3(Fold13(Times2(Fold15(h)))))
  }

  // ---- what the hash is ------------------------------------------------------------------

  /** The four accumulators. */
  datatype Lanes = Lanes(v1: U32, v2: U32, v3: U32, v4: U32)

  const PRIME1: U32 := 2654435761
  const PRIME2: U32 := 2246822519
  const PRIME5: U32 := 374761393

  function Start(seed: U32): Lanes {
    Lanes(seed + PRIME1 + PRIME2, seed + PRIME2, seed + 0, seed - PRIME1)
  }

  /** One stripe of sixteen bytes. */
  function Stripe(v: Lanes, b: seq<Byte>): Lanes
    requires |b| == 16
  {
    Lanes(Round(v.v1, Word(b[0..4])), Round(v.v2, Word(b[4..8])), Round(v.v3, Word(b[8..12])), Round(v.v4, Word(b[12..16])))
  }

  /** All full stripes of s. */
  function Stripes(v: Lanes, s: seq<Byte>): Lanes
    decreases |s|
  {
    if |s| < 16 then v else Stripes(Stripe(v, s[..16]), s[16..])
  }

  function Merge(v: Lanes): U32 {
    Add(Add(Add(Rotl1(v.v1), Rotl7(v.v2)), Rotl12(v.v3)), Rotl18(v.v4))
  }

  /** The bytes after the last stripe: whole words first. */
  function Tail(h: U32, s: seq<Byte>): U32
    decreases |s|
  {
    if |s| >= 4 then Tail(MixWord(h, Word(s[..4])), s[4..])
    else if |s| > 0 then Tail(MixByte(h, s[0]), s[1..])
    else h
  }

  function Low32(n: nat): U32 {
    (n % 0x1_0000_0000) as U32
  }

  function Full(n: nat): nat { n / 16 * 16 }

  function Body(v: Lanes, n: nat, seed: U32): U32 {
    Add(if n >= 16 then Merge(v) else Add(seed, PRIME5), Low32(n))
  }

  function Hash(s: seq<Byte>, seed: U32): U32 {
    Avalanche(Tail(Body(Stripes(Start(seed), s), |s|, seed), s[Full(|s|)..]))
  }

  // ---- every step is a bijection ---------------------------------------------------------

  lemma Times1Raw(x: U32, y: U32)
    requires x * 2654435761 == y * 2654435761
    ensures x == y
  {
  }

  lemma Times1One(x: U32, y: U32)
    requires Times1(x) == Times1(y)
    ensures x == y
  {
    assert x * 2654435761 == y * 2654435761 by {
      calc {
        x * 2654435761;
        Times1(x);
        Times1(y);
        y * 2654435761;
      }
    }
    Times1Raw(x, y);
  }

  lemma Times2Raw(x: U32, y: U32)
    requires x * 2246822519 == y * 2246822519
    ensures x == y
  {
  }

  lemma Times2One(x: U32, y: U32)
    requires Times2(x) == Times2(y)
    ensures x == y
  {
    assert x * 2246822519 == y * 2246822519 by {
      calc {
        x * 2246822519;
        Times2(x);
        Times2(y);
        y * 2246822519;
      }
    }
    Times2Raw(x, y);
  }

  lemma Times3Raw(x: U32, y: U32)
    requires x * 3266489917 == y * 3266489917
    ensures x == y
  {
  }

  lemma Times3One(x: U32, y: U32)
    requires Times3(x) == Times3(y)
    ensures x == y
  {
    assert x * 3266489917 == y * 3266489917 by {
      calc {
        x * 3266489917;
        Times3(x);
        Times3(y);
        y * 3266489917;
      }
    }
    Times3Raw(x, y);
  }

  lemma Times4Raw(x: U32, y: U32)
    requires x * 668265263 == y * 668265263
    ensures x == y
  {
  }

  lemma Times4One(x: U32, y: U32)
    requires Times4(x) == Times4(y)
    ensures x == y
  {
    assert x * 668265263 == y * 668265263 by {
      calc {
        x * 668265263;
        Times4(x);
        Times4(y);
        y * 668265263;
      }
    }
    Times4Raw(x, y);
  }

  lemma Times5Raw(x: U32, y: U32)
    requires x * 374761393 == y * 374761393
    ensures x == y
  {
  }

  lemma Times5One(x: U32, y: U32)
    requires Times5(x) == Times5(y)
    ensures x == y
  {
    assert x * 374761393 == y * 374761393 by {
      calc {
        x * 374761393;
        Times5(x);
        Times5(y);
        y * 374761393;
      }
    }
    Times5Raw(x, y);
  }

  lemma Rotl1One(x: U32, y: U32)
    requires Rotl1(x) == Rotl1(y)
    ensures x == y
  {
  }

  lemma Rotl7One(x: U32, y: U32)
    requires Rotl7(x) == Rotl7(y)
    ensures x == y
  {
  }

  lemma Rotl11One(x: U32, y: U32)
    requires Rotl11(x) == Rotl11(y)
    ensures x == y
  {
  }

  lemma Rotl12One(x: U32, y: U32)
    requires Rotl12(x) == Rotl12(y)
    ensures x == y
  {
  }

  lemma Rotl13One(x: U32, y: U32)
    requires Rotl13(x) == Rotl13(y)
    ensures x == y
  {
  }

  lemma Rotl17One(x: U32, y: U32)
    requires Rotl17(x) == Rotl17(y)
    ensures x == y
  {
  }

  lemma Rotl18One(x: U32, y: U32)
    requires Rotl18(x) == Rotl18(y)
    ensures x == y
  {
  }

  lemma Shr15Xor(x: U32, y: U32)
    ensures Shr15(Xor(x, y)) == Xor(Shr15(x), Shr15(y))
  {
    calc {
      Shr15(Xor(x, y));
      (x ^ y) >> 15;
      (x >> 15) ^ (y >> 15);
      Xor(Shr15(x), Shr15(y));
    }
  }

  lemma Shr15Fixed(d: U32)
    requires d == Shr15(d)
    ensures d == 0
  {
  }

  lemma Fold15One(x: U32, y: U32)
    requires Fold15(x) == Fold15(y)
    ensures x == y
  {
    hide Xor, Shr15;
    XorSwap(x, y, Shr15(x), Shr15(y));
    Shr15Xor(x, y);
    Shr15Fixed(Xor(x, y));
    NoDiff(x, y);
  }

  lemma Shr13Xor(x: U32, y: U32)
    ensures Shr13(Xor(x, y)) == Xor(Shr13(x), Shr13(y))
  {
    calc {
      Shr13(Xor(x, y));
      (x ^ y) >> 13;
      (x >> 13) ^ (y >> 13);
      Xor(Shr13(x), Shr13(y));
    }
  }

  lemma Shr13Fixed(d: U32)
    requires d == Shr13(d)
    ensures d == 0
  {
  }

  lemma Fold13One(x: U32, y: U32)
    requires Fold13(x) == Fold13(y)
    ensures x == y
  {
    hide Xor, Shr13;
    XorSwap(x, y, Shr13(x), Shr13(y));
    Shr13Xor(x, y);
    Shr13Fixed(Xor(x, y));
    NoDiff(x, y);
  }

  lemma Shr16Xor(x: U32, y: U32)
    ensures Shr16(Xor(x, y)) == Xor(Shr16(x), Shr16(y))
  {
    calc {
      Shr16(Xor(x, y));
      (x ^ y) >> 16;
      (x >> 16) ^ (y >> 16);
      Xor(Shr16(x), Shr16(y));
    }
  }

  lemma Shr16Fixed(d: U32)
    requires d == Shr16(d)
    ensures d == 0
  {
  }

  lemma Fold16One(x: U32, y: U32)
    requires Fold16(x) == Fold16(y)
    ensures x == y
  {
    hide Xor, Shr16;
    XorSwap(x, y, Shr16(x), Shr16(y));
    Shr16Xor(x, y);
    Shr16Fixed(Xor(x, y));
    NoDiff(x, y);
  }

  lemma XorSwapRaw(x: U32, y: U32, a: U32, b: U32)
    requires x ^ a == y ^ b
    ensures x ^ y == a ^ b
  {
  }

  lemma XorSwap(x: U32, y: U32, a: U32, b: U32)
    requires Xor(x, a) == Xor(y, b)
    ensures Xor(x, y) == Xor(a, b)
  {
    assert x ^ a == y ^ b by {
      calc {
        x ^ a;
        Xor(x, a);
        Xor(y, b);
        y ^ b;
      }
    }
    XorSwapRaw(x, y, a, b);
  }

  lemma NoDiff(x: U32, y: U32)
    requires Xor(x, y) == 0
    ensures x == y
  {
  }

  lemma JoinOne(a: Byte, b: Byte, c: Byte, d: Byte, a': Byte, b': Byte, c': Byte, d': Byte)
    requires Join(a, b, c, d) == Join(a', b', c', d')
    ensures a == a' && b == b' && c == c' && d == d'
  {
  }

  lemma WordOne(b: seq<Byte>, c: seq<Byte>)
    requires |b| == 4 && |c| == 4 && Word(b) == Word(c)
    ensures b == c
  {
    hide Join;
    JoinOne(b[0], b[1], b[2], b[3], c[0], c[1], c[2], c[3]);
  }

  lemma CancelRaw(x: U32, y: U32, z: U32)
    requires x + z == y + z
    ensures x == y
  {
  }

  lemma Cancel(x: U32, y: U32, z: U32)
    requires Add(x, z) == Add(y, z)
    ensures x == y
  {
    assert x + z == y + z by {
      calc {
        x + z;
        Add(x, z);
        Add(y, z);
        y + z;
      }
    }
    CancelRaw(x, y, z);
  }

  lemma AddSwap(x: U32, y: U32)
    ensures Add(x, y) == Add(y, x)
  {
  }

  lemma CancelLeft(x: U32, y: U32, z: U32)
    requires Add(z, x) == Add(z, y)
    ensures x == y
  {
    hide Add;
    AddSwap(z, x);
    AddSwap(z, y);
    Cancel(x, y, z);
  }

  lemma AvalancheOne(x: U32, y: U32)
    requires Avalanche(x) == Avalanche(y)
    ensures x == y
  {
    hide Fold15, Fold13, Fold16, Times2, Times3;
    Fold16One(Times3(Fold13(Times2(Fold15(x)))), Times3(Fold13(Times2(Fold15(y)))));
    Times3One(Fold13(Times2(Fold15(x))), Fold13(Times2(Fold15(y))));
    Fold13One(Times2(Fold15(x)), Times2(Fold15(y)));
    Times2One(Fold15(x), Fold15(y));
    Fold15One(x, y);
  }

  /** A round tells its accumulators apart, and its words. */
  lemma RoundOne(v: U32, w: U32, v': U32, w': U32)
    requires Round(v, w) == Round(v', w')
    ensures v == v' <==> w == w'
  {
    hide Add, Times1, Times2, Rotl13;
    Times1One(Rotl13(Add(v, Times2(w))), Rotl13(Add(v', Times2(w'))));
    Rotl13One(Add(v, Times2(w)), Add(v', Times2(w')));
    if w == w' {
      Cancel(v, v', Times2(w));
    }
    if v == v' {
      CancelLeft(Times2(w), Times2(w'), v);
      Times2One(w, w');
    }
  }

  lemma MixWordOne(h: U32, w: U32, h': U32, w': U32)
    requires MixWord(h, w) == MixWord(h', w')
    ensures h == h' <==> w == w'
  {
    hide Add, Times3, Times4, Rotl17;
    Times4One(Rotl17(Add(h, Times3(w))), Rotl17(Add(h', Times3(w'))));
    Rotl17One(Add(h, Times3(w)), Add(h', Times3(w')));
    if w == w' {
      Cancel(h, h', Times3(w));
    }
    if h == h' {
      CancelLeft(Times3(w), Times3(w'), h);
      Times3One(w, w');
    }
  }

  lemma Widen(b: Byte, c: Byte)
    requires Wide(b) == Wide(c)
    ensures b == c
  {
  }

  lemma MixByteOne(h: U32, b: Byte, h': U32, b': Byte)
    requires MixByte(h, b) == MixByte(h', b')
    ensures h == h' <==> b == b'
  {
    hide Add, Times1, Times5, Rotl11, Wide;
    Times1One(Rotl11(Add(h, Times5(Wide(b)))), Rotl11(Add(h', Times5(Wide(b')))));
    Rotl11One(Add(h, Times5(Wide(b))), Add(h', Times5(Wide(b'))));
    if b == b' {
      Cancel(h, h', Times5(Wide(b)));
    }
    if h == h' {
      CancelLeft(Times5(Wide(b)), Times5(Wide(b')), h);
      Times5One(Wide(b), Wide(b'));
      Widen(b, b');
    }
  }

  // ---- one word apart --------------------------------------------------------------------

  /** s and t differ, and only between i and j. */
  predicate DifferWithin(s: seq<Byte>, t: seq<Byte>, i: nat, j: nat)
    requires i <= j <= |s| == |t|
  {
    s != t && s[..i] == t[..i] && s[j..] == t[j..]
  }

  lemma {:induction false} TailOne(h: U32, h': U32, s: seq<Byte>)
    requires h != h'
    ensures Tail(h, s) != Tail(h', s)
    decreases |s|
  {
    hide MixWord, MixByte, Word;
    if |s| >= 4 {
      var w := Word(s[..4]);
      if MixWord(h, w) == MixWord(h', w) {
        MixWordOne(h, w, h', w);
      }
      TailOne(MixWord(h, w), MixWord(h', w), s[4..]);
    } else if |s| > 0 {
      if MixByte(h, s[0]) == MixByte(h', s[0]) {
        MixByteOne(h, s[0], h', s[0]);
      }
      TailOne(MixByte(h, s[0]), MixByte(h', s[0]), s[1..]);
    }
  }

  lemma {:induction false} TailWord(h: U32, s: seq<Byte>, t: seq<Byte>, k: nat)
    requires |s| == |t| && 4 * k + 4 <= |s| && DifferWithin(s, t, 4 * k, 4 * k + 4)
    ensures Tail(h, s) != Tail(h, t)
    decreases k
  {
    hide MixWord, Word;
    if k == 0 {
      assert s == s[..4] + s[4..] && t == t[..4] + t[4..];
      var w, w' := Word(s[..4]), Word(t[..4]);
      if w == w' {
        WordOne(s[..4], t[..4]);
      }
      if MixWord(h, w) == MixWord(h, w') {
        MixWordOne(h, w, h, w');
      }
      TailOne(MixWord(h, w), MixWord(h, w'), s[4..]);
    } else {
      Skip(s, t, 4 * k, 4 * k + 4, 4);
      TailWord(MixWord(h, Word(s[..4])), s[4..], t[4..], k - 1);
    }
  }

  /** Leaving out n bytes that agree. */
  lemma Skip(s: seq<Byte>, t: seq<Byte>, i: nat, j: nat, n: nat)
    requires i <= j <= |s| == |t| && n <= i && DifferWithin(s, t, i, j)
    ensures s[..n] == t[..n] && DifferWithin(s[n..], t[n..], i - n, j - n)
  {
    assert s[..n] == s[..i][..n] && t[..n] == t[..i][..n];
    assert s[n..][..i - n] == s[..i][n..] && t[n..][..i - n] == t[..i][n..];
    assert s[n..][j - n..] == s[j..] && t[n..][j - n..] == t[j..];
    assert s == s[..n] + s[n..] && t == t[..n] + t[n..];
  }

  lemma {:induction false} TailByte(h: U32, s: seq<Byte>, t: seq<Byte>, i: nat)
    requires |s| == |t| && |s| / 4 * 4 <= i < |s| && DifferWithin(s, t, i, i + 1)
    ensures Tail(h, s) != Tail(h, t)
    decreases |s|
  {
    hide MixWord, MixByte, Word;
    if |s| >= 4 {
      Skip(s, t, i, i + 1, 4);
      TailByte(MixWord(h, Word(s[..4])), s[4..], t[4..], i - 4);
    } else if i == 0 {
      assert s == s[..1] + s[1..] && t == t[..1] + t[1..];
      if MixByte(h, s[0]) == MixByte(h, t[0]) {
        MixByteOne(h, s[0], h, t[0]);
      }
      TailOne(MixByte(h, s[0]), MixByte(h, t[0]), s[1..]);
    } else {
      Skip(s, t, i, i + 1, 1);
      assert s[..1][0] == s[0] && t[..1][0] == t[0];
      TailByte(MixByte(h, s[0]), s[1..], t[1..], i - 1);
    }
  }

  /** Exactly lane j differs. */
  predicate Apart(v: Lanes, w: Lanes, j: nat) {
    match j
    case 0 => v.v1 != w.v1 && v.v2 == w.v2 && v.v3 == w.v3 && v.v4 == w.v4
    case 1 => v.v1 == w.v1 && v.v2 != w.v2 && v.v3 == w.v3 && v.v4 == w.v4
    case 2 => v.v1 == w.v1 && v.v2 == w.v2 && v.v3 != w.v3 && v.v4 == w.v4
    case _ => v.v1 == w.v1 && v.v2 == w.v2 && v.v3 == w.v3 && v.v4 != w.v4
  }

  lemma RoundApart(v: U32, w: U32, v': U32, w': U32)
    requires (v == v') != (w == w')
    ensures Round(v, w) != Round(v', w')
  {
    hide Round;
    if Round(v, w) == Round(v', w') {
      RoundOne(v, w, v', w');
    }
  }

  lemma StripeApart(v: Lanes, w: Lanes, j: nat, b: seq<Byte>)
    requires j < 4 && Apart(v, w, j) && |b| == 16
    ensures Apart(Stripe(v, b), Stripe(w, b), j)
  {
    hide Round, Word;
    match j
    case 0 => RoundApart(v.v1, Word(b[0..4]), w.v1, Word(b[0..4]));
    case 1 => RoundApart(v.v2, Word(b[4..8]), w.v2, Word(b[4..8]));
    case 2 => RoundApart(v.v3, Word(b[8..12]), w.v3, Word(b[8..12]));
    case _ => RoundApart(v.v4, Word(b[12..16]), w.v4, Word(b[12..16]));
  }

  lemma {:induction false} StripesApart(v: Lanes, w: Lanes, j: nat, s: seq<Byte>)
    requires j < 4 && Apart(v, w, j)
    ensures Apart(Stripes(v, s), Stripes(w, s), j)
    decreases |s|
  {
    hide Apart, Stripe;
    if |s| >= 16 {
      StripeApart(v, w, j, s[..16]);
      StripesApart(Stripe(v, s[..16]), Stripe(w, s[..16]), j, s[16..]);
    }
  }

  /** Stripes that differ in word j put lane j apart. */
  lemma StripeWord(v: Lanes, b: seq<Byte>, c: seq<Byte>, j: nat)
    requires j < 4 && |b| == 16 && |c| == 16 && DifferWithin(b, c, 4 * j, 4 * j + 4)
    ensures Apart(Stripe(v, b), Stripe(v, c), j)
  {
    hide Round, Word;
    OtherWords(b, c, j);
    match j
    case 0 => WordApart(b[0..4], c[0..4]); RoundApart(v.v1, Word(b[0..4]), v.v1, Word(c[0..4]));
    case 1 => WordApart(b[4..8], c[4..8]); RoundApart(v.v2, Word(b[4..8]), v.v2, Word(c[4..8]));
    case 2 => WordApart(b[8..12], c[8..12]); RoundApart(v.v3, Word(b[8..12]), v.v3, Word(c[8..12]));
    case _ => WordApart(b[12..16], c[12..16]); RoundApart(v.v4, Word(b[12..16]), v.v4, Word(c[12..16]));
  }

  lemma WordApart(b: seq<Byte>, c: seq<Byte>)
    requires |b| == 4 && |c| == 4 && b != c
    ensures Word(b) != Word(c)
  {
    hide Word;
    if Word(b) == Word(c) {
      WordOne(b, c);
    }
  }

  lemma OtherWords(b: seq<Byte>, c: seq<Byte>, j: nat)
    requires j < 4 && |b| == 16 && |c| == 16 && DifferWithin(b, c, 4 * j, 4 * j + 4)
    ensures forall i :: 0 <= i < 16 && !(4 * j <= i < 4 * j + 4) ==> b[i] == c[i]
    ensures b[0..4] == c[0..4] <==> j != 0
    ensures b[4..8] == c[4..8] <==> j != 1
    ensures b[8..12] == c[8..12] <==> j != 2
    ensures b[12..16] == c[12..16] <==> j != 3
  {
    forall i | 0 <= i < 16 && !(4 * j <= i < 4 * j + 4) ensures b[i] == c[i] {
      if i < 4 * j {
        assert b[..4 * j][i] == c[..4 * j][i];
      } else {
        assert b[4 * j + 4..][i - 4 * j - 4] == c[4 * j + 4..][i - 4 * j - 4];
      }
    }
    assert b == b[0..4] + b[4..8] + b[8..12] + b[12..16];
    assert c == c[0..4] + c[4..8] + c[8..12] + c[12..16];
  }

  /** Leaving out what follows a stripe, when the difference lies within it. */
  lemma FirstStripe(s: seq<Byte>, t: seq<Byte>, k: nat)
    requires |s| == |t| && k < 4 && 16 <= |s| && DifferWithin(s, t, 4 * k, 4 * k + 4)
    ensures DifferWithin(s[..16], t[..16], 4 * k, 4 * k + 4) && s[16..] == t[16..]
  {
    var i, j := 4 * k, 4 * k + 4;
    assert s[..16] + s[16..] == s && t[..16] + t[16..] == t;
    assert s[16..] == s[j..][16 - j..] && t[16..] == t[j..][16 - j..];
    assert s[..16][..i] == s[..i] && t[..16][..i] == t[..i];
    assert s[..16][j..] == s[j..][..16 - j] && t[..16][j..] == t[j..][..16 - j];
  }

  /** s and t differ only in word j of stripe i. */
  predicate InStripe(s: seq<Byte>, t: seq<Byte>, i: nat, j: nat) {
    j < 4 && |s| == |t| && 16 * i + 16 <= |s| && DifferWithin(s, t, 16 * i + 4 * j, 16 * i + 4 * j + 4)
  }

  lemma NextStripe(s: seq<Byte>, t: seq<Byte>, i: nat, j: nat)
    requires InStripe(s, t, i, j) && i > 0
    ensures |s| >= 16 && s[..16] == t[..16] && InStripe(s[16..], t[16..], i - 1, j)
  {
    hide DifferWithin;
    Skip(s, t, 16 * i + 4 * j, 16 * i + 4 * j + 4, 16);
  }

  lemma ThisStripe(v: Lanes, s: seq<Byte>, t: seq<Byte>, j: nat)
    requires InStripe(s, t, 0, j)
    ensures Apart(Stripe(v, s[..16]), Stripe(v, t[..16]), j) && s[16..] == t[16..]
  {
    hide Stripe, Apart, DifferWithin;
    FirstStripe(s, t, j);
    StripeWord(v, s[..16], t[..16], j);
  }

  /** A difference in word j of one stripe puts lane j apart. */
  lemma {:induction false} StripesLane(v: Lanes, s: seq<Byte>, t: seq<Byte>, i: nat, j: nat)
    requires InStripe(s, t, i, j)
    ensures j < 4 && Apart(Stripes(v, s), Stripes(v, t), j)
    decreases i
  {
    hide Stripe, Apart, DifferWithin;
    if i == 0 {
      ThisStripe(v, s, t, j);
      StripesApart(Stripe(v, s[..16]), Stripe(v, t[..16]), j, s[16..]);
    } else {
      NextStripe(s, t, i, j);
      StripesLane(Stripe(v, s[..16]), s[16..], t[16..], i - 1, j);
    }
  }

  lemma {:induction false} StripesSame(v: Lanes, s: seq<Byte>, t: seq<Byte>)
    requires |s| / 16 == |t| / 16 && s[..Full(|s|)] == t[..Full(|t|)]
    ensures Stripes(v, s) == Stripes(v, t)
    decreases |s|
  {
    hide Stripe;
    if |s| >= 16 {
      var n := Full(|s|);
      assert s[..16] == s[..n][..16] && t[..16] == t[..n][..16];
      assert s[16..][..n - 16] == s[..n][16..] && t[16..][..n - 16] == t[..n][16..];
      StripesSame(Stripe(v, s[..16]), s[16..], t[16..]);
    }
  }

  lemma MergeApart(v: Lanes, w: Lanes, j: nat)
    requires j < 4 && Apart(v, w, j)
    ensures Merge(v) != Merge(w)
  {
    hide Add, Rotl1, Rotl7, Rotl12, Rotl18;
    if Merge(v) == Merge(w) {
      var a, b, c, d := Rotl1(v.v1), Rotl7(v.v2), Rotl12(v.v3), Rotl18(v.v4);
      match j
      case 0 =>
        Cancel(Add(Add(a, b), c), Add(Add(Rotl1(w.v1), b), c), d);
        Cancel(Add(a, b), Add(Rotl1(w.v1), b), c);
        Cancel(a, Rotl1(w.v1), b);
        Rotl1One(v.v1, w.v1);
      case 1 =>
        Cancel(Add(Add(a, b), c), Add(Add(a, Rotl7(w.v2)), c), d);
        Cancel(Add(a, b), Add(a, Rotl7(w.v2)), c);
        CancelLeft(b, Rotl7(w.v2), a);
        Rotl7One(v.v2, w.v2);
      case 2 =>
        Cancel(Add(Add(a, b), c), Add(Add(a, b), Rotl12(w.v3)), d);
        CancelLeft(c, Rotl12(w.v3), Add(a, b));
        Rotl12One(v.v3, w.v3);
      case _ =>
        CancelLeft(d, Rotl18(w.v4), Add(Add(a, b), c));
        Rotl18One(v.v4, w.v4);
    }
  }

  lemma AvalancheApart(x: U32, y: U32)
    requires x != y
    ensures Avalanche(x) != Avalanche(y)
  {
    hide Avalanche;
    if Avalanche(x) == Avalanche(y) {
      AvalancheOne(x, y);
    }
  }

  lemma BodyApart(v: Lanes, w: Lanes, j: nat, n: nat, seed: U32)
    requires j < 4 && Apart(v, w, j) && n >= 16
    ensures Body(v, n, seed) != Body(w, n, seed)
  {
    hide Apart, Merge, Add;
    MergeApart(v, w, j);
    if Add(Merge(v), Low32(n)) == Add(Merge(w), Low32(n)) {
      Cancel(Merge(v), Merge(w), Low32(n));
    }
  }

  lemma FullFacts(n: nat)
    ensures Full(n) <= n < Full(n) + 16 && Full(n) % 16 == 0
    ensures (n - Full(n)) / 4 * 4 == n / 4 * 4 - Full(n) && Full(n) / 4 * 4 == Full(n)
    ensures Full(n) >= 16 <==> n >= 16
  {
    var q, r := n / 16, n % 16;
    Quarters(q, r);
    Quarters(q, 0);
    assert n == 16 * q + r;
  }

  lemma Quarters(q: nat, r: nat)
    requires r < 16
    ensures (16 * q + r) / 4 == 4 * q + r / 4
  {
  }

  /** What comes after the stripes of s. */
  function Rest(s: seq<Byte>): seq<Byte> {
    s[Full(|s|)..]
  }

  /** Two inputs of one length that differ in a single aligned word never have the same hash. */
  lemma WordChangesHash(s: seq<Byte>, t: seq<Byte>, seed: U32, k: nat)
    requires |s| == |t| && 4 * k + 4 <= |s| && DifferWithin(s, t, 4 * k, 4 * k + 4)
    ensures Hash(s, seed) != Hash(t, seed)
  {
    hide Avalanche, Body, Stripes, Start, Tail, DifferWithin, Full;
    FullFacts(|s|);
    var n := Full(|s|);
    if 4 * k + 4 <= n {
      WordInStripes(s, t, seed, k);
    } else {
      Skip(s, t, 4 * k, 4 * k + 4, n);
      StripesSame(Start(seed), s, t);
      var h := Body(Stripes(Start(seed), s), |s|, seed);
      TailWord(h, s[n..], t[n..], k - n / 4);
      AvalancheApart(Tail(h, s[n..]), Tail(h, t[n..]));
    }
  }

  lemma WordInStripes(s: seq<Byte>, t: seq<Byte>, seed: U32, k: nat)
    requires |s| == |t| && 4 * k + 4 <= Full(|s|) && DifferWithin(s, t, 4 * k, 4 * k + 4)
    ensures Hash(s, seed) != Hash(t, seed)
  {
    hide Avalanche, Body, Stripes, Start, Tail, Full, DifferWithin;
    FullFacts(|s|);
    var i, j := k / 4, k % 4;
    assert k == 4 * i + j;
    StripesLane(Start(seed), s, t, i, j);
    BodyApart(Stripes(Start(seed), s), Stripes(Start(seed), t), j, |s|, seed);
    SameRest(s, t, 4 * k + 4, Full(|s|));
    TailOne(Body(Stripes(Start(seed), s), |s|, seed), Body(Stripes(Start(seed), t), |s|, seed), Rest(s));
    AvalancheApart(Tail(Body(Stripes(Start(seed), s), |s|, seed), Rest(s)), Tail(Body(Stripes(Start(seed), t), |t|, seed), Rest(t)));
  }

  lemma SameRest(s: seq<Byte>, t: seq<Byte>, j: nat, n: nat)
    requires j <= n <= |s| == |t| && 4 <= j && DifferWithin(s, t, j - 4, j)
    ensures s[n..] == t[n..]
  {
    assert s[n..] == s[j..][n - j..] && t[n..] == t[j..][n - j..];
  }

  /** The same for a byte after the last whole word. */
  lemma ByteChangesHash(s: seq<Byte>, t: seq<Byte>, seed: U32, i: nat)
    requires |s| == |t| && |s| / 4 * 4 <= i < |s| && DifferWithin(s, t, i, i + 1)
    ensures Hash(s, seed) != Hash(t, seed)
  {
    hide Avalanche, Body, Stripes, Start, Tail, DifferWithin, Full;
    FullFacts(|s|);
    var n := Full(|s|);
    Skip(s, t, i, i + 1, n);
    StripesSame(Start(seed), s, t);
    var h := Body(Stripes(Start(seed), s), |s|, seed);
    TailByte(h, s[n..], t[n..], i - n);
    AvalancheApart(Tail(h, s[n..]), Tail(h, t[n..]));
  }

  // ---- the one-shot hash -----------------------------------------------------------------

  function Concat(chunks: seq<seq<Byte>>): seq<Byte> {
    if chunks == [] then [] else Concat(chunks[..|chunks| - 1]) + chunks[|chunks| - 1]
  }

  /** The stripes of s from p on. */
  lemma StripesFrom(v: Lanes, s: seq<Byte>, p: nat)
    requires p + 16 <= |s|
    ensures Stripes(v, s[p..]) == Stripes(Stripe(v, s[p..p + 16]), s[p + 16..])
  {
    assert s[p..][..16] == s[p..p + 16] && s[p..][16..] == s[p + 16..];
  }

  /** The loop over words and bytes after the stripes, and the final scrambling. */
  method Finish(h: U32, s: seq<Byte>) returns (r: U32)
    ensures r == Avalanche(Tail(h, s))
  {
    hide MixWord, MixByte, Word, Avalanche;
    r := h;
    var p := 0;
    while p + 4 <= |s|
      invariant 0 <= p <= |s| && Tail(r, s[p..]) == Tail(h, s)
    {
      assert s[p..][..4] == s[p..p + 4] && s[p..][4..] == s[p + 4..];
      r := MixWord(r, Word(s[p..p + 4]));
      p := p + 4;
    }
    while p < |s|
      invariant |s| < p + 4 && 0 <= p <= |s| && Tail(r, s[p..]) == Tail(h, s)
    {
      assert s[p..][1..] == s[p + 1..];
      r := MixByte(r, s[p]);
      p := p + 1;
    }
    r := Avalanche(r);
  }

  /** The loop over full stripes from p on. */
  method Consume(v: Lanes, s: seq<Byte>, p: nat) returns (w: Lanes, q: nat)
    requires p <= |s|
    ensures q == p + Full(|s| - p) && q <= |s| < q + 16
    ensures w == Stripes(v, s[p..])
  {
    hide Stripe, Full;
    w, q := v, p;
    while q + 16 <= |s|
      invariant p <= q <= |s| && (q - p) % 16 == 0
      invariant Stripes(w, s[q..]) == Stripes(v, s[p..])
    {
      StripesFrom(w, s, q);
      w := Stripe(w, s[q..q + 16]);
      q := q + 16;
    }
    FullIs(|s| - p, q - p);
  }

  lemma FullIs(n: nat, m: nat)
    requires m <= n < m + 16 && m % 16 == 0
    ensures Full(n) == m
  {
    var q := m / 16;
    assert m == 16 * q && n / 16 == q;
  }

  // XXH32_endian_align
  method Xxh32(s: seq<Byte>, seed: U32) returns (h: U32)
    ensures h == Hash(s, seed)
  {
    hide Avalanche, Tail, Start, Merge, Full, Stripes, Add, Low32;
    FullFacts(|s|);
    var p := 0;
    if |s| >= 16 {
      var v;
      assert s[0..] == s;
      v, p := Consume(Start(seed), s, 0);
      h := Merge(v);
    } else {
      h := Add(seed, PRIME5);
    }
    h := Add(h, Low32(|s|));
    h := Finish(h, s[p..]);
  }

  // ---- the buffered hash -----------------------------------------------------------------

  lemma RestFacts(s: seq<Byte>)
    ensures |Rest(s)| < 16 && |s| == Full(|s|) + |Rest(s)| && s == s[..Full(|s|)] + Rest(s)
    ensures |s| < 16 ==> Rest(s) == s && Full(|s|) == 0
    ensures |s| >= 16 ==> Rest(s) == Rest(s[16..])
  {
    hide Full;
    FullFacts(|s|);
    if |s| < 16 {
      FullIs(|s|, 0);
    } else {
      FullIs(|s| - 16, Full(|s|) - 16);
      assert s[16..][Full(|s|) - 16..] == s[Full(|s|)..];
    }
  }

  /** What is appended only meets what has not been used up. */
  lemma {:induction false} StripesAppend(v: Lanes, s: seq<Byte>, t: seq<Byte>)
    ensures Stripes(v, s + t) == Stripes(Stripes(v, s), Rest(s) + t)
    ensures Rest(s + t) == Rest(Rest(s) + t)
    decreases |s|
  {
    hide Stripe, Rest;
    RestFacts(s);
    if |s| >= 16 {
      assert (s + t)[..16] == s[..16] && (s + t)[16..] == s[16..] + t;
      RestFacts(s + t);
      StripesAppend(Stripe(v, s[..16]), s[16..], t);
    }
  }

  const LIMIT: nat := 0x1_0000_0000_0000_0000

  /** XXH_istate32_t; fed is everything put in since the reset. */
  class State {
    var totalLen: nat
    var seed: U32
    var v: Lanes
    const mem: array<Byte>
    var memsize: nat
    ghost var fed: seq<Byte>

    ghost predicate Valid()
      reads this, mem
    {
      && mem.Length == 16 && memsize < 16
      && totalLen == |fed| % LIMIT
      && v == Stripes(Start(seed), fed)
      && mem[..memsize] == Rest(fed)
    }

    // XXH32_reset
    constructor (seed: U32)
      ensures Valid() && fed == [] && this.seed == seed && fresh(mem)
    {
      this.seed := seed;
      v := Start(seed);
      totalLen, memsize := 0, 0;
      mem := new Byte[16](_ => 0);
      fed := [];
    }

    // memcpy into the buffer
    method Copy(at: nat, s: seq<Byte>)
      requires at + |s| <= mem.Length
      modifies mem
      ensures mem[..at + |s|] == old(mem[..at]) + s
    {
      forall i | 0 <= i < |s| {
        mem[at + i] := s[i];
      }
    }

    // XXH32_update_endian
    method Update(input: seq<Byte>)
      requires Valid()
      modifies this, mem
      ensures Valid() && seed == old(seed) && fed == old(fed) + input
    {
      hide Stripe, Start, Rest, Full;
      StripesAppend(Start(seed), fed, input);
      ghost var x := mem[..memsize] + input;
      RestFacts(x);
      Wraps(|fed|, |input|);
      totalLen := (totalLen + |input|) % LIMIT;
      fed := fed + input;
      if memsize + |input| < 16 {
        Copy(memsize, input);
        memsize := memsize + |input|;
        return;
      }
      var p := 0;
      if memsize > 0 {
        Copy(memsize, input[..16 - memsize]);
        assert mem[..16] == x[..16];
        v := Stripe(v, mem[..16]);
        p := 16 - memsize;
        assert x[16..] == input[p..];
        memsize := 0;
      } else {
        assert x == input == input[0..];
      }
      assert Stripes(v, input[p..]) == Stripes(Start(seed), fed) && Rest(input[p..]) == Rest(fed);
      RestFacts(input[p..]);
      ConsumeRest(input, p);
    }

    /** The rest of the input: full stripes at once, what is left into the empty buffer. */
    method ConsumeRest(input: seq<Byte>, p: nat)
      requires mem.Length == 16 && memsize == 0 && p <= |input| && totalLen == |fed| % LIMIT
      requires Stripes(v, input[p..]) == Stripes(Start(seed), fed) && Rest(input[p..]) == Rest(fed)
      modifies this`v, this`memsize, mem
      ensures Valid()
    {
      hide Stripe, Start, Full;
      RestFacts(input[p..]);
      var q := p;
      if p + 16 <= |input| {
        v, q := Consume(v, input, p);
      }
      assert input[p..][q - p..] == input[q..];
      if q < |input| {
        Copy(0, input[q..]);
        memsize := |input| - q;
      }
    }

    // XXH32_digest_endian
    method Digest() returns (h: U32)
      requires Valid()
      ensures |fed| < LIMIT ==> h == Hash(fed, seed)
    {
      hide Stripes, Start, Merge, Add, Avalanche, Tail, Full, Low32;
      if |fed| < LIMIT {
        NoWrap(|fed|);
      }
      FullFacts(|fed|);
      if totalLen >= 16 {
        h := Merge(v);
      } else {
        h := Add(seed, PRIME5);
      }
      h := Add(h, Low32(totalLen));
      h := Finish(h, mem[..memsize]);
    }
  }

  lemma NoWrap(n: nat)
    requires n < LIMIT
    ensures n % LIMIT == n
  {
  }

  lemma Wraps(m: nat, n: nat)
    ensures (m % LIMIT + n) % LIMIT == (m + n) % LIMIT
  {
  }

  /** However an input is cut into pieces, feeding them gives the one-shot hash. */
  method HashChunks(chunks: seq<seq<Byte>>, seed: U32) returns (h: U32)
    ensures |Concat(chunks)| < LIMIT ==> h == Hash(Concat(chunks), seed)
  {
    hide Hash, Stripes, Rest;
    var state := new State(seed);
    for n := 0 to |chunks|
      invariant fresh(state) && fresh(state.mem) && state.Valid() && state.seed == seed && state.fed == Concat(chunks[..n])
    {
      assert chunks[..n + 1][..n] == chunks[..n];
      state.Update(chunks[n]);
    }
    assert chunks[..|chunks|] == chunks;
    h := state.Digest();
  }
}
