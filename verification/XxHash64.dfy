/** XXH64 (src/hash/xxhash.c): the one-shot hash and the buffering form fed in pieces, with stripes of
four 64-bit words. */
module XxHash64 {
  type Byte = bv8
  type U64 = bv64

  const PRIME1: U64 := 11400714785074694791
  const PRIME2: U64 := 14029467366897019727
  const PRIME3: U64 := 1609587929392839161
  const PRIME4: U64 := 9650029242287828579
  const PRIME5: U64 := 2870177450012600261

  // ---- steps on words --------------------------------------------------------------------

  function Rotl(x: U64, r: nat): U64
    requires 0 < r < 64
  {
    (x << r) | (x >> (64 - r))
  }

  function Word(b: seq<Byte>): U64
    requires |b| == 4
  {
    (b[0] as U64) | ((b[1] as U64) << 8) | ((b[2] as U64) << 16) | ((b[3] as U64) << 24)
  }

  function Long(b: seq<Byte>): U64
    requires |b| == 8
  {
    Word(b[0..4]) | (Word(b[4..8]) << 32)
  }

  function Scramble(w: U64): U64 {
    Rotl(w * PRIME2, 31) * PRIME1
  }

  function Round(v: U64, w: U64): U64 {
    Rotl(v + w * PRIME2, 31) * PRIME1
  }

  function MixLong(h: U64, w: U64): U64 {
    Rotl(h ^ Scramble(w), 27) * PRIME1 + PRIME4
  }

  function MixWord(h: U64, w: U64): U64 {
    Rotl(h ^ (w * PRIME1), 23) * PRIME2 + PRIME3
  }

  function MixByte(h: U64, b: Byte): U64 {
    Rotl(h ^ ((b as U64) * PRIME5), 11) * PRIME1
  }

  function Avalanche(h: U64): U64 {
    var a := (h ^ (h >> 33)) * PRIME2;
    var b := (a ^ (a >> 29)) * PRIME3;
    b ^ (b >> 32)
  }

  // ---- what the hash is ------------------------------------------------------------------

  /** The four accumulators. */
  datatype Lanes = Lanes(v1: U64, v2: U64, v3: U64, v4: U64)

  function Start(seed: U64): Lanes {
    Lanes(seed + PRIME1 + PRIME2, seed + PRIME2, seed + 0, seed - PRIME1)
  }

  /** One stripe of thirty-two bytes. */
  function Stripe(v: Lanes, b: seq<Byte>): Lanes
    requires |b| == 32
  {
    Lanes(Round(v.v1, Long(b[0..8])), Round(v.v2, Long(b[8..16])), Round(v.v3, Long(b[16..24])), Round(v.v4, Long(b[24..32])))
  }

  /** All full stripes of s. */
  function Stripes(v: Lanes, s: seq<Byte>): Lanes
    decreases |s|
  {
    if |s| < 32 then v else Stripes(Stripe(v, s[..32]), s[32..])
  }

  function MergeOne(h: U64, v: U64): U64 {
    (h ^ Scramble(v)) * PRIME1 + PRIME4
  }

  function Merge(v: Lanes): U64 {
    var h := Rotl(v.v1, 1) + Rotl(v.v2, 7) + Rotl(v.v3, 12) + Rotl(v.v4, 18);
    MergeOne(MergeOne(MergeOne(MergeOne(h, v.v1), v.v2), v.v3), v.v4)
  }

  /** The bytes after the last stripe: whole longs, then perhaps a word, then bytes. */
  function Tail(h: U64, s: seq<Byte>): U64
    decreases |s|
  {
    if |s| >= 8 then Tail(MixLong(h, Long(s[..8])), s[8..])
    else if |s| >= 4 then Tail(MixWord(h, Word(s[..4])), s[4..])
    else if |s| > 0 then Tail(MixByte(h, s[0]), s[1..])
    else h
  }

  const LIMIT: nat := 0x1_0000_0000_0000_0000

  function Low64(n: nat): U64 {
    (n % LIMIT) as U64
  }

  function Add(x: U64, y: U64): U64 { x + y }

  function Full(n: nat): nat { n / 32 * 32 }

  function Body(v: Lanes, n: nat, seed: U64): U64 {
    Add(if n >= 32 then Merge(v) else Add(seed, PRIME5), Low64(n))
  }

  function Rest(s: seq<Byte>): seq<Byte> {
    s[Full(|s|)..]
  }

  function Hash(s: seq<Byte>, seed: U64): U64 {
    Avalanche(Tail(Body(Stripes(Start(seed), s), |s|, seed), Rest(s)))
  }

  lemma FullFacts(n: nat)
    ensures Full(n) <= n < Full(n) + 32 && Full(n) % 32 == 0
    ensures Full(n) >= 32 <==> n >= 32
  {
  }

  // ---- the one-shot hash -----------------------------------------------------------------

  function Concat(chunks: seq<seq<Byte>>): seq<Byte> {
    if chunks == [] then [] else Concat(chunks[..|chunks| - 1]) + chunks[|chunks| - 1]
  }

  /** The stripes of s from p on. */
  lemma StripesFrom(v: Lanes, s: seq<Byte>, p: nat)
    requires p + 32 <= |s|
    ensures Stripes(v, s[p..]) == Stripes(Stripe(v, s[p..p + 32]), s[p + 32..])
  {
    assert s[p..][..32] == s[p..p + 32] && s[p..][32..] == s[p + 32..];
  }

  /** The loop over words and bytes after the stripes, and the final scrambling. */
  method Finish(h: U64, s: seq<Byte>) returns (r: U64)
    ensures r == Avalanche(Tail(h, s))
  {
    hide MixLong, MixWord, MixByte, Long, Word, Avalanche;
    r := h;
    var p := 0;
    while p + 8 <= |s|
      invariant 0 <= p <= |s| && Tail(r, s[p..]) == Tail(h, s)
    {
      assert s[p..][..8] == s[p..p + 8] && s[p..][8..] == s[p + 8..];
      r := MixLong(r, Long(s[p..p + 8]));
      p := p + 8;
    }
    if p + 4 <= |s| {
      assert s[p..][..4] == s[p..p + 4] && s[p..][4..] == s[p + 4..];
      r := MixWord(r, Word(s[p..p + 4]));
      p := p + 4;
    }
    while p < |s|
      invariant |s| < p + 4 && 0 <= p <= |s| && Tail(r, s[p..]) == Tail(h, s)
    {
      assert s[p..][1..] == s[p + 1..];
      r := MixByte(r, s[p]);
      p := p + 1;
    }
    r := Avalanche(r);
  }

  /** The loop over full stripes from p on. */
  method Consume(v: Lanes, s: seq<Byte>, p: nat) returns (w: Lanes, q: nat)
    requires p <= |s|
    ensures q == p + Full(|s| - p) && q <= |s| < q + 32
    ensures w == Stripes(v, s[p..])
  {
    hide Stripe, Full;
    w, q := v, p;
    while q + 32 <= |s|
      invariant p <= q <= |s| && (q - p) % 32 == 0
      invariant Stripes(w, s[q..]) == Stripes(v, s[p..])
    {
      StripesFrom(w, s, q);
      w := Stripe(w, s[q..q + 32]);
      q := q + 32;
    }
    FullIs(|s| - p, q - p);
  }

  lemma FullIs(n: nat, m: nat)
    requires m <= n < m + 32 && m % 32 == 0
    ensures Full(n) == m
  {
    var q := m / 32;
    assert m == 32 * q && n / 32 == q;
  }

  // XXH64_endian_align
  method Xxh64(s: seq<Byte>, seed: U64) returns (h: U64)
    ensures h == Hash(s, seed)
  {
    hide Avalanche, Tail, Start, Merge, Full, Stripes, Add, Low64;
    FullFacts(|s|);
    RestFacts(s);
    var p := 0;
    if |s| >= 32 {
      var v;
      assert s[0..] == s;
      v, p := Consume(Start(seed), s, 0);
      h := Merge(v);
    } else {
      h := Add(seed, PRIME5);
    }
    h := Add(h, Low64(|s|));
    h := Finish(h, s[p..]);
  }

  // ---- the buffered hash -----------------------------------------------------------------

  lemma RestFacts(s: seq<Byte>)
    ensures |Rest(s)| < 32 && |s| == Full(|s|) + |Rest(s)| && s == s[..Full(|s|)] + Rest(s)
    ensures |s| < 32 ==> Rest(s) == s && Full(|s|) == 0
    ensures |s| >= 32 ==> Rest(s) == Rest(s[32..])
  {
    hide Full;
    FullFacts(|s|);
    if |s| < 32 {
      FullIs(|s|, 0);
    } else {
      FullIs(|s| - 32, Full(|s|) - 32);
      assert s[32..][Full(|s|) - 32..] == s[Full(|s|)..];
    }
  }

  /** What is appended only meets what has not been used up. */
  lemma {:induction false} StripesAppend(v: Lanes, s: seq<Byte>, t: seq<Byte>)
    ensures Stripes(v, s + t) == Stripes(Stripes(v, s), Rest(s) + t)
    ensures Rest(s + t) == Rest(Rest(s) + t)
    decreases |s|
  {
    hide Stripe, Rest;
    RestFacts(s);
    if |s| >= 32 {
      assert (s + t)[..32] == s[..32] && (s + t)[32..] == s[32..] + t;
      RestFacts(s + t);
      StripesAppend(Stripe(v, s[..32]), s[32..], t);
    }
  }

  /** XXH_istate64_t; fed is everything put in since the reset. */
  class State {
    var totalLen: nat
    var seed: U64
    var v: Lanes
    const mem: array<Byte>
    var memsize: nat
    ghost var fed: seq<Byte>

    ghost predicate Valid()
      reads this, mem
    {
      && mem.Length == 32 && memsize < 32
      && totalLen == |fed| % LIMIT
      && v == Stripes(Start(seed), fed)
      && mem[..memsize] == Rest(fed)
    }

    // XXH64_reset
    constructor (seed: U64)
      ensures Valid() && fed == [] && this.seed == seed && fresh(mem)
    {
      this.seed := seed;
      v := Start(seed);
      totalLen, memsize := 0, 0;
      mem := new Byte[32](_ => 0);
      fed := [];
    }

    // memcpy into the buffer
    method Copy(at: nat, s: seq<Byte>)
      requires at + |s| <= mem.Length
      modifies mem
      ensures mem[..at + |s|] == old(mem[..at]) + s
    {
      forall i | 0 <= i < |s| {
        mem[at + i] := s[i];
      }
    }

    // XXH64_update_endian
    method Update(input: seq<Byte>)
      requires Valid()
      modifies this, mem
      ensures Valid() && seed == old(seed) && fed == old(fed) + input
    {
      hide Stripe, Start, Rest, Full;
      StripesAppend(Start(seed), fed, input);
      ghost var x := mem[..memsize] + input;
      RestFacts(x);
      Wraps(|fed|, |input|);
      totalLen := (totalLen + |input|) % LIMIT;
      fed := fed + input;
      if memsize + |input| < 32 {
        Copy(memsize, input);
        memsize := memsize + |input|;
        return;
      }
      var p := 0;
      if memsize > 0 {
        Copy(memsize, input[..32 - memsize]);
        assert mem[..32] == x[..32];
        v := Stripe(v, mem[..32]);
        p := 32 - memsize;
        assert x[32..] == input[p..];
        memsize := 0;
      } else {
        assert x == input == input[0..];
      }
      assert Stripes(v, input[p..]) == Stripes(Start(seed), fed) && Rest(input[p..]) == Rest(fed);
      RestFacts(input[p..]);
      ConsumeRest(input, p);
    }

    /** The rest of the input: full stripes at once, what is left into the empty buffer. */
    method ConsumeRest(input: seq<Byte>, p: nat)
      requires mem.Length == 32 && memsize == 0 && p <= |input| && totalLen == |fed| % LIMIT
      requires Stripes(v, input[p..]) == Stripes(Start(seed), fed) && Rest(input[p..]) == Rest(fed)
      modifies this`v, this`memsize, mem
      ensures Valid()
    {
      hide Stripe, Start, Full;
      RestFacts(input[p..]);
      var q := p;
      if p + 32 <= |input| {
        v, q := Consume(v, input, p);
      }
      assert input[p..][q - p..] == input[q..];
      if q < |input| {
        Copy(0, input[q..]);
        memsize := |input| - q;
      }
    }

    // XXH64_digest_endian
    method Digest() returns (h: U64)
      requires Valid()
      ensures |fed| < LIMIT ==> h == Hash(fed, seed)
    {
      hide Stripes, Start, Merge, Add, Avalanche, Tail, Full, Low64;
      if |fed| < LIMIT {
        NoWrap(|fed|);
      }
      FullFacts(|fed|);
      if totalLen >= 32 {
        h := Merge(v);
      } else {
        h := Add(seed, PRIME5);
      }
      h := Add(h, Low64(totalLen));
      h := Finish(h, mem[..memsize]);
    }
  }

  lemma NoWrap(n: nat)
    requires n < LIMIT
    ensures n % LIMIT == n
  {
  }

  lemma Wraps(m: nat, n: nat)
    ensures (m % LIMIT + n) % LIMIT == (m + n) % LIMIT
  {
  }

  /** However an input is cut into pieces, feeding them gives the one-shot hash. */
  method HashChunks(chunks: seq<seq<Byte>>, seed: U64) returns (h: U64)
    ensures |Concat(chunks)| < LIMIT ==> h == Hash(Concat(chunks), seed)
  {
    hide Hash, Stripes, Rest;
    var state := new State(seed);
    for n := 0 to |chunks|
      invariant fresh(state) && fresh(state.mem) && state.Valid() && state.seed == seed && state.fed == Concat(chunks[..n])
    {
      assert chunks[..n + 1][..n] == chunks[..n];
      state.Update(chunks[n]);
    }
    assert chunks[..|chunks|] == chunks;
    h := state.Digest();
  }
}
