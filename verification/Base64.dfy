/** The resumable base64 coders (src/lib/cencode.c, src/lib/cdecode.c), after section 4 of RFC 4648,
with the line breaks and the skipping of foreign characters of section 6.8 of RFC 2045. */
module Base64 {
  type Byte = bv8

  /** Six bits in a byte. */
  predicate Six(v: Byte) { v < 64 }

  const LINE := 72

  // ---- single characters -----------------------------------------------------------------

  /** The alphabet, as ranges. */
  function Letter(n: int): char
    requires 0 <= n < 64
  {
    if n < 26 then ('A' as int + n) as char
    else if n < 52 then ('a' as int + n - 26) as char
    else if n < 62 then ('0' as int + n - 52) as char
    else if n == 62 then '+' else '/'
  }

  // base64_encode_value
  function EncodeValue(v: Byte): char {
    var n := v as int;
    if n > 63 then '=' else Letter(n)
  }

  predicate IsChar(c: char) { c as int < 256 }

  /** The value of a character as a signed char less 43, again as a signed char. */
  function Offset(c: char): int
    requires IsChar(c)
  {
    var signed := if c as int < 128 then c as int else c as int - 256;
    (signed - 43 + 128) % 256 - 128
  }

  /** The table of base64_decode_value, as ranges of its 80 entries. */
  function Entry(n: int): int
    requires 0 <= n < 80
  {
    if n == 0 then 62 else if n == 4 then 63 else if 5 <= n < 15 then n + 47 else if n == 18 then -2
    else if 22 <= n < 48 then n - 22 else if 54 <= n then n - 28 else -1
  }

  /** Byte 123 lies just beyond the table, and the check lets it through. */
  predicate Decodable(c: char) { IsChar(c) && c != '{' }

  // base64_decode_value
  function DecodeValue(c: char): int
    requires Decodable(c)
  {
    var n := Offset(c);
    if n < 0 || n > 80 then -1 else Entry(n)
  }

  lemma LetterBack(n: int)
    requires 0 <= n < 64
    ensures Decodable(Letter(n)) && DecodeValue(Letter(n)) == n
  {
  }

  lemma SixInt(v: Byte)
    requires Six(v)
    ensures 0 <= v as int < 64
  {
  }

  lemma ValueBack(v: Byte)
    requires Six(v)
    ensures Decodable(EncodeValue(v)) && DecodeValue(EncodeValue(v)) == v as int
  {
    hide Letter, DecodeValue, Decodable, Six;
    SixInt(v);
    LetterBack(v as int);
  }

  /** The alphabet of RFC 4648, table 1. */
  lemma Alphabet(n: int)
    requires 0 <= n < 64
    ensures n < 26 ==> Letter(n) == "ABCDEFGHIJKLMNOPQRSTUVWXYZ"[n]
    ensures 26 <= n < 52 ==> Letter(n) == "abcdefghijklmnopqrstuvwxyz"[n - 26]
    ensures 52 <= n ==> Letter(n) == "0123456789+/"[n - 52]
  {
  }

  /** The check of base64_decode_value keeps the index inside the table exactly for the other bytes. */
  lemma IndexInTable(c: char)
    requires IsChar(c)
    ensures (Offset(c) < 0 || Offset(c) > 80 || Offset(c) < 80) <==> c != '{'
  {
  }

  lemma Skipped()
    ensures Decodable('\n') && DecodeValue('\n') < 0 && Decodable('=') && DecodeValue('=') < 0
  {
  }

  lemma EncodesBack(c: char)
    requires Decodable(c) && DecodeValue(c) >= 0
    ensures DecodeValue(c) < 64 && EncodeValue(DecodeValue(c) as Byte) == c
  {
    hide Letter, DecodeValue, Decodable;
    ValuesSix(c);
    Back(DecodeValue(c));
    LetterIs(c);
  }

  lemma Back(n: int)
    requires 0 <= n < 64
    ensures (n as Byte) as int == n
  {
  }

  lemma LetterIs(c: char)
    requires Decodable(c) && DecodeValue(c) >= 0
    ensures DecodeValue(c) < 64 && Letter(DecodeValue(c)) == c
  {
  }

  lemma ValuesSix(c: char)
    requires Decodable(c)
    ensures DecodeValue(c) < 64
  {
  }

  lemma SixValue(n: int)
    requires 0 <= n < 64
    ensures Six(n as Byte)
  {
  }

  /** Only the characters of the alphabet have a value. */
  lemma OnlyAlphabet(c: char)
    requires Decodable(c)
    ensures DecodeValue(c) >= 0 <==> exists v: Byte :: Six(v) && EncodeValue(v) == c
    ensures DecodeValue(c) < 64
  {
    hide EncodeValue, DecodeValue, Six;
    ValuesSix(c);
    if DecodeValue(c) >= 0 {
      EncodesBack(c);
      SixValue(DecodeValue(c));
      var v := DecodeValue(c) as Byte;
      assert Six(v) && EncodeValue(v) == c;
    }
    if v: Byte :| Six(v) && EncodeValue(v) == c {
      ValueBack(v);
    }
  }

  // ---- the pieces of bytes ---------------------------------------------------------------

  function Or(a: Byte, b: Byte): Byte { a | b }

  function High6(b: Byte): Byte { b >> 2 }

  function Low2(b: Byte): Byte { (b & 3) << 4 }

  function High4(b: Byte): Byte { b >> 4 }

  function Low4(b: Byte): Byte { (b & 15) << 2 }

  function High2(b: Byte): Byte { b >> 6 }

  function Low6(b: Byte): Byte { b & 63 }

  lemma Sixes(a: Byte, b: Byte)
    ensures Six(High6(a)) && Six(Or(Low2(a), High4(b))) && Six(Or(Low4(a), High2(b))) && Six(Low6(a)) && Six(Low2(a)) && Six(Low4(a))
  {
  }

  // the shifts of the decoder
  function Bits6(v: Byte): Byte { (v & 63) << 2 }

  function Bits2(v: Byte): Byte { (v & 48) >> 4 }

  function Bits4(v: Byte): Byte { (v & 15) << 4 }

  function Bits4High(v: Byte): Byte { (v & 60) >> 2 }

  function Bits2Low(v: Byte): Byte { (v & 3) << 6 }

  /** What the encoder cuts apart the decoder puts together. */
  lemma Together(a: Byte, b: Byte)
    ensures Or(Bits6(High6(a)), Bits2(Or(Low2(a), High4(b)))) == a
    ensures Or(Bits4(Or(Low2(a), High4(b))), Bits4High(Or(Low4(b), High2(a)))) == b
    ensures Or(Bits2Low(Or(Low4(b), High2(a))), Low6(Low6(a))) == a
  {
  }

  // ---- the encoded text ------------------------------------------------------------------

  /** The characters written when byte number i is read after byte prev. */
  function Emit(i: nat, prev: Byte, b: Byte): string {
    if i % 3 == 0 then [EncodeValue(High6(b))]
    else if i % 3 == 1 then [EncodeValue(Or(Low2(prev), High4(b)))]
    else [EncodeValue(Or(Low4(prev), High2(b))), EncodeValue(Low6(b))] + (if (i / 3 + 1) % (LINE / 4) == 0 then "\n" else "")
  }

  function Prev(s: seq<Byte>, i: nat): Byte
    requires i <= |s|
  {
    if i == 0 then 0 else s[i - 1]
  }

  /** What has been written once s has been read. */
  function Head(s: seq<Byte>): string {
    if s == [] then "" else var n := |s| - 1; Head(s[..n]) + Emit(n, Prev(s, n), s[n])
  }

  /** The bits of the last byte that wait for the next. */
  function Waiting(s: seq<Byte>): Byte {
    if |s| % 3 == 1 then Low2(s[|s| - 1]) else if |s| % 3 == 2 then Low4(s[|s| - 1]) else 0
  }

  function Closing(s: seq<Byte>): string {
    if |s| % 3 == 1 then [EncodeValue(Waiting(s))] + "==\n"
    else if |s| % 3 == 2 then [EncodeValue(Waiting(s))] + "=\n"
    else "\n"
  }

  function Text(s: seq<Byte>): string {
    Head(s) + Closing(s)
  }

  lemma HeadMore(s: seq<Byte>, b: Byte)
    ensures Head(s + [b]) == Head(s) + Emit(|s|, Prev(s, |s|), b)
  {
    var t := s + [b];
    assert t[..|s|] == s;
  }

  // ---- decoding --------------------------------------------------------------------------

  predicate AllDecodable(t: string) { forall i :: 0 <= i < |t| ==> Decodable(t[i]) }

  /** The values of the characters that have one. */
  function Values(t: string): (vs: seq<Byte>)
    requires AllDecodable(t)
    ensures |vs| <= |t|
  {
    if t == "" then []
    else
      var n := |t| - 1;
      OnlyAlphabet(t[n]);
      Values(t[..n]) + (if DecodeValue(t[n]) < 0 then [] else [DecodeValue(t[n]) as Byte])
  }

  /** The bits of the last value that begin the next byte. */
  function Partial(vs: seq<Byte>): Byte {
    if |vs| % 4 == 1 then Bits6(vs[|vs| - 1])
    else if |vs| % 4 == 2 then Bits4(vs[|vs| - 1])
    else if |vs| % 4 == 3 then Bits2Low(vs[|vs| - 1])
    else 0
  }

  /** The byte that value v completes when k values came before it, with pending bits p. */
  function Completes(k: nat, p: Byte, v: Byte): seq<Byte> {
    if k % 4 == 0 then []
    else if k % 4 == 1 then [Or(p, Bits2(v))]
    else if k % 4 == 2 then [Or(p, Bits4High(v))]
    else [Or(p, Low6(v))]
  }

  /** The bytes that the values make up: three for every four. */
  function Bytes(vs: seq<Byte>): seq<Byte> {
    if vs == [] then []
    else var n := |vs| - 1; Bytes(vs[..n]) + Completes(n, Partial(vs[..n]), vs[n])
  }

  function Decoded(t: string): seq<Byte>
    requires AllDecodable(t)
  {
    Bytes(Values(t))
  }

  lemma BytesMore(vs: seq<Byte>, v: Byte)
    ensures Bytes(vs + [v]) == Bytes(vs) + Completes(|vs|, Partial(vs), v)
  {
    hide Completes, Partial;
    var ws := vs + [v];
    assert ws[..|vs|] == vs;
  }

  /** The bits of v that begin the next byte when k values came before. */
  function Begins(k: nat, v: Byte): Byte {
    if k % 4 == 0 then Bits6(v) else if k % 4 == 1 then Bits4(v) else if k % 4 == 2 then Bits2Low(v) else 0
  }

  lemma PartialMore(vs: seq<Byte>, v: Byte)
    ensures Partial(vs + [v]) == Begins(|vs|, v)
  {
    hide Bits6, Bits4, Bits2Low;
    var n := |vs|;
    assert (n + 1) % 4 == if n % 4 == 3 then 0 else n % 4 + 1;
  }

  lemma CompletesOne(k: nat, p: Byte, v: Byte)
    ensures |Completes(k, p, v)| == if k % 4 == 0 then 0 else 1
  {
  }

  /** How many whole bytes k values make. */
  function Threes(k: nat): nat { 3 * k / 4 }

  /** Three bytes for every four characters of the alphabet. */
  lemma {:induction false} BytesCount(vs: seq<Byte>)
    ensures |Bytes(vs)| == Threes(|vs|)
  {
    hide Completes, Partial;
    if vs != [] {
      var n := |vs| - 1;
      BytesCount(vs[..n]);
      CompletesOne(n, Partial(vs[..n]), vs[n]);
    }
  }

  lemma {:induction false} ValuesPlus(t: string, u: string)
    requires AllDecodable(t) && AllDecodable(u)
    ensures AllDecodable(t + u) && Values(t + u) == Values(t) + Values(u)
  {
    hide Decodable, DecodeValue;
    if u == "" {
      assert t + u == t;
    } else {
      var n := |u| - 1;
      ValuesPlus(t, u[..n]);
      assert (t + u)[..|t + u| - 1] == t + u[..n];
    }
  }

  lemma ValuesOne(v: Byte)
    requires Six(v)
    ensures AllDecodable([EncodeValue(v)]) && Values([EncodeValue(v)]) == [v]
  {
    ValueBack(v);
    assert [EncodeValue(v)][..0] == "";
  }

  // ---- the round trip --------------------------------------------------------------------

  lemma EmitValues(i: nat, prev: Byte, b: Byte)
    ensures AllDecodable(Emit(i, prev, b))
    ensures Values(Emit(i, prev, b)) == if i % 3 == 0 then [High6(b)] else if i % 3 == 1 then [Or(Low2(prev), High4(b))] else [Or(Low4(prev), High2(b)), Low6(b)]
  {
    hide EncodeValue, AllDecodable, Values, Or, High6, Low2, High4, Low4, High2, Low6, Six;
    Sixes(b, prev);
    Sixes(prev, b);
    if i % 3 == 0 {
      ValuesOne(High6(b));
    } else if i % 3 == 1 {
      ValuesOne(Or(Low2(prev), High4(b)));
    } else {
      ValuesTwo(Or(Low4(prev), High2(b)), Low6(b), if (i / 3 + 1) % (LINE / 4) == 0 then "\n" else "");
    }
  }

  lemma ValuesTwo(x: Byte, y: Byte, nl: string)
    requires Six(x) && Six(y) && (nl == "\n" || nl == "")
    ensures AllDecodable([EncodeValue(x), EncodeValue(y)] + nl) && Values([EncodeValue(x), EncodeValue(y)] + nl) == [x, y]
  {
    hide EncodeValue, AllDecodable, Values, Six;
    ValuesOne(x);
    ValuesOne(y);
    Newline(nl);
    ValuesPlus([EncodeValue(x)], [EncodeValue(y)]);
    ValuesPlus([EncodeValue(x)] + [EncodeValue(y)], nl);
    assert [EncodeValue(x), EncodeValue(y)] == [EncodeValue(x)] + [EncodeValue(y)];
  }

  lemma Newline(nl: string)
    requires nl == "\n" || nl == ""
    ensures AllDecodable(nl) && Values(nl) == []
  {
    Skipped();
    assert nl == "\n" ==> nl[..0] == "";
  }

  /** What reading the text of s so far has given, by the size of s: all whole triples, and of a
  started one all bytes but the last, whose upper bits are in the last value. */
  ghost predicate Reads0(s: seq<Byte>, vs: seq<Byte>, q: nat) {
    |s| == 3 * q && |vs| == 4 * q && Bytes(vs) == s
  }

  ghost predicate Reads1(s: seq<Byte>, vs: seq<Byte>, q: nat) {
    |s| == 3 * q + 1 && |vs| == 4 * q + 1 && Bytes(vs) == s[..3 * q] && vs[4 * q] == High6(s[3 * q])
  }

  ghost predicate Reads2(s: seq<Byte>, vs: seq<Byte>, q: nat) {
    && |s| == 3 * q + 2 && |vs| == 4 * q + 2 && Bytes(vs) == s[..3 * q + 1]
    && vs[4 * q + 1] == Or(Low2(s[3 * q]), High4(s[3 * q + 1]))
  }

  ghost predicate Reads(s: seq<Byte>, vs: seq<Byte>) {
    Reads0(s, vs, |s| / 3) || Reads1(s, vs, |s| / 3) || Reads2(s, vs, |s| / 3)
  }

  lemma CompletesAt(q: nat, p: Byte, v: Byte)
    ensures Completes(4 * q, p, v) == [] && Completes(4 * q + 1, p, v) == [Or(p, Bits2(v))]
    ensures Completes(4 * q + 2, p, v) == [Or(p, Bits4High(v))] && Completes(4 * q + 3, p, v) == [Or(p, Low6(v))]
  {
    hide Or, Low6, Bits2, Bits4High;
  }

  lemma PartialAt(vs: seq<Byte>, q: nat)
    ensures |vs| == 4 * q + 1 ==> Partial(vs) == Bits6(vs[4 * q])
    ensures |vs| == 4 * q + 2 ==> Partial(vs) == Bits4(vs[4 * q + 1])
    ensures |vs| == 4 * q + 3 ==> Partial(vs) == Bits2Low(vs[4 * q + 2])
  {
    hide Bits6, Bits4, Bits2Low;
  }

  lemma ReadsFirst(s: seq<Byte>, vs: seq<Byte>, q: nat, b: Byte)
    requires Reads0(s, vs, q)
    ensures Reads1(s + [b], vs + [High6(b)], q)
  {
    hide Or, High6, Partial, Bytes, Completes;
    BytesMore(vs, High6(b));
    CompletesAt(q, Partial(vs), High6(b));
    assert (s + [b])[..3 * q] == s;
  }

  lemma ReadsSecond(s: seq<Byte>, vs: seq<Byte>, q: nat, b: Byte)
    requires Reads1(s, vs, q)
    ensures Reads2(s + [b], vs + [Or(Low2(s[3 * q]), High4(b))], q)
  {
    hide Or, High6, Low2, High4, Bits6, Bits2, Partial, Bytes, Completes;
    var a := s[3 * q];
    var v := Or(Low2(a), High4(b));
    BytesMore(vs, v);
    CompletesAt(q, Partial(vs), v);
    PartialAt(vs, q);
    Together(a, b);
    assert (s + [b])[..3 * q + 1] == s[..3 * q] + [a];
  }

  lemma ReadsThird(s: seq<Byte>, vs: seq<Byte>, q: nat, b: Byte)
    requires Reads2(s, vs, q)
    ensures Reads0(s + [b], vs + [Or(Low4(s[3 * q + 1]), High2(b)), Low6(b)], q + 1)
  {
    hide Or, Low2, High4, Low4, High2, Low6, Bits4, Bits4High, Bits2Low, Partial, Bytes, Completes;
    var a := s[3 * q + 1];
    var v, w := Or(Low4(a), High2(b)), Low6(b);
    BytesMore(vs, v);
    BytesMore(vs + [v], w);
    assert vs + [v] + [w] == vs + [v, w];
    CompletesAt(q, Partial(vs), v);
    CompletesAt(q, Partial(vs + [v]), w);
    PartialAt(vs, q);
    PartialAt(vs + [v], q);
    TogetherThird(s[3 * q], a, b);
    assert s + [b] == s[..3 * q + 1] + [a] + [b];
  }

  lemma TogetherThird(z: Byte, a: Byte, b: Byte)
    ensures Or(Bits4(Or(Low2(z), High4(a))), Bits4High(Or(Low4(a), High2(b)))) == a
    ensures Or(Bits2Low(Or(Low4(a), High2(b))), Low6(Low6(b))) == b
  {
  }

  lemma ReadsMore(s: seq<Byte>, vs: seq<Byte>, b: Byte, ws: seq<Byte>)
    requires Reads(s, vs)
    requires ws == var i := |s|; var p := Prev(s, i);
      if i % 3 == 0 then [High6(b)] else if i % 3 == 1 then [Or(Low2(p), High4(b))] else [Or(Low4(p), High2(b)), Low6(b)]
    ensures Reads(s + [b], vs + ws)
  {
    hide Or, High6, Low2, High4, Low4, High2, Low6, Bytes;
    var q := |s| / 3;
    if Reads0(s, vs, q) {
      assert |s| % 3 == 0;
      ReadsFirst(s, vs, q, b);
      assert |s + [b]| / 3 == q;
    } else if Reads1(s, vs, q) {
      assert |s| % 3 == 1;
      ReadsSecond(s, vs, q, b);
      assert |s + [b]| / 3 == q;
    } else {
      assert |s| % 3 == 2;
      ReadsThird(s, vs, q, b);
      assert |s + [b]| / 3 == q + 1;
    }
  }

  /** The text of s so far, decoded. */
  lemma {:induction false} HeadReads(s: seq<Byte>)
    ensures AllDecodable(Head(s)) && Reads(s, Values(Head(s)))
  {
    hide Or, High6, Partial, Low2, High4, Low4, High2, Low6, Bytes, Emit, Reads, AllDecodable, Values;
    if s == [] {
      Newline("");
      ReadsNone();
    } else {
      var n := |s| - 1;
      var t := s[..n];
      HeadReads(t);
      EmitValues(n, Prev(s, n), s[n]);
      ValuesPlus(Head(t), Emit(n, Prev(s, n), s[n]));
      assert t + [s[n]] == s;
      assert n > 0 ==> Prev(s, n) == t[n - 1];
      ReadsMore(t, Values(Head(t)), s[n], Values(Emit(n, Prev(s, n), s[n])));
    }
  }

  lemma ReadsNone()
    ensures Reads([], [])
  {
  }

  lemma ClosingBits(z: Byte, a: Byte)
    ensures Or(Bits6(High6(a)), Bits2(Low2(a))) == a
    ensures Or(Bits4(Or(Low2(z), High4(a))), Bits4High(Low4(a))) == a
  {
  }

  lemma WaitingSix(s: seq<Byte>)
    ensures Six(Waiting(s))
  {
    if |s| % 3 != 0 {
      Sixes(s[|s| - 1], 0);
    }
  }

  lemma PadValues(pad: string)
    requires pad == "==\n" || pad == "=\n" || pad == "\n"
    ensures AllDecodable(pad) && Values(pad) == []
  {
    Skipped();
    assert AllDecodable(pad);
    assert pad[..|pad| - 1] == "==" || pad[..|pad| - 1] == "=" || pad[..|pad| - 1] == "";
    assert Values("") == [];
    assert "="[..0] == "" && Values("=") == [];
    assert "=="[..1] == "=" && Values("==") == [];
  }

  lemma ClosingValues(s: seq<Byte>)
    ensures AllDecodable(Closing(s)) && Values(Closing(s)) == if |s| % 3 == 0 then [] else [Waiting(s)]
  {
    hide EncodeValue, AllDecodable, Values, Six, Waiting;
    WaitingSix(s);
    var pad := if |s| % 3 == 1 then "==\n" else if |s| % 3 == 2 then "=\n" else "\n";
    PadValues(pad);
    if |s| % 3 != 0 {
      ValuesOne(Waiting(s));
      ValuesPlus([EncodeValue(Waiting(s))], pad);
    }
  }

  lemma ClosesFirst(s: seq<Byte>, vs: seq<Byte>, q: nat)
    requires Reads1(s, vs, q)
    ensures Bytes(vs + [Low2(s[3 * q])]) == s
  {
    hide Or, High6, Low2, Bits6, Bits2, Partial, Bytes, Completes;
    var a := s[3 * q];
    BytesMore(vs, Low2(a));
    CompletesAt(q, Partial(vs), Low2(a));
    PartialAt(vs, q);
    ClosingBits(a, a);
    assert s == s[..3 * q] + [a];
  }

  lemma ClosesSecond(s: seq<Byte>, vs: seq<Byte>, q: nat)
    requires Reads2(s, vs, q)
    ensures Bytes(vs + [Low4(s[3 * q + 1])]) == s
  {
    hide Or, Low2, High4, Low4, Bits4, Bits4High, Partial, Bytes, Completes;
    var a := s[3 * q + 1];
    BytesMore(vs, Low4(a));
    CompletesAt(q, Partial(vs), Low4(a));
    PartialAt(vs, q);
    ClosingBits(s[3 * q], a);
    assert s == s[..3 * q + 1] + [a];
  }

  /** Decoding the text of s gives s, despite line breaks and padding. */
  lemma RoundTrip(s: seq<Byte>)
    ensures AllDecodable(Text(s)) && Decoded(Text(s)) == s
  {
    hide AllDecodable, Values, Bytes, Low2, Low4, High6, High4, Or, EncodeValue, Head, Closing;
    HeadReads(s);
    ClosingValues(s);
    ValuesPlus(Head(s), Closing(s));
    var q := |s| / 3;
    var vs := Values(Head(s));
    if Reads0(s, vs, q) {
      assert |s| % 3 == 0;
      assert vs + [] == vs;
    } else if Reads1(s, vs, q) {
      assert |s| % 3 == 1;
      ClosesFirst(s, vs, q);
    } else {
      assert |s| % 3 == 2;
      ClosesSecond(s, vs, q);
    }
  }

  // ---- sizes -----------------------------------------------------------------------------

  function Size(n: nat): nat {
    4 * (n / 3) + n % 3 + n / 3 / 18
  }

  lemma EmitSize(n: nat, prev: Byte, b: Byte)
    ensures Size(n) + |Emit(n, prev, b)| == Size(n + 1)
  {
    hide EncodeValue, Low2, Low4, High6, High4, High2, Low6, Or;
    var q := n / 3;
    if n % 3 == 2 {
      assert (n + 1) / 3 == q + 1 && (n + 1) % 3 == 0;
      EighteenStep(q);
    } else {
      assert (n + 1) / 3 == q;
    }
  }

  /** Four characters for each triple, one for each byte beyond, and the line breaks. */
  lemma {:induction false} HeadSize(s: seq<Byte>)
    ensures |Head(s)| == Size(|s|)
  {
    hide Emit, Size;
    if s != [] {
      var n := |s| - 1;
      HeadSize(s[..n]);
      EmitSize(n, Prev(s, n), s[n]);
    } else {
      SizeNone();
    }
  }

  lemma SizeNone()
    ensures Size(0) == 0
  {
  }

  lemma EighteenStep(q: nat)
    ensures (q + 1) / 18 == q / 18 + (if (q + 1) % 18 == 0 then 1 else 0)
    ensures (q + 1) % 18 == if (q + 1) % 18 == 0 then 0 else q % 18 + 1
  {
  }

  /** The encoder's output in all. */
  lemma TextSize(s: seq<Byte>)
    ensures |Text(s)| == 4 * ((|s| + 2) / 3) + |s| / 3 / 18 + 1
  {
    hide EncodeValue, Waiting, Head;
    HeadSize(s);
    var q := |s| / 3;
    assert |s| == 3 * q + |s| % 3;
    assert (|s| + 2) / 3 == if |s| % 3 == 0 then q else q + 1;
  }

  /** How far the last line of t reaches. */
  function Column(t: string): nat {
    if t == "" || t[|t| - 1] == '\n' then 0 else Column(t[..|t| - 1]) + 1
  }

  /** No line of t is longer than w. */
  predicate Narrow(t: string, w: nat) {
    forall i :: 0 <= i <= |t| ==> Column(t[..i]) <= w
  }

  lemma NarrowMore(t: string, c: char, w: nat)
    requires Narrow(t, w) && (c == '\n' || Column(t) < w)
    ensures Narrow(t + [c], w) && Column(t + [c]) == if c == '\n' then 0 else Column(t) + 1
  {
    var u := t + [c];
    assert u[..|t|] == t && u[..|u|] == u;
    forall i | 0 <= i <= |u| ensures Column(u[..i]) <= w {
      assert i <= |t| ==> u[..i] == t[..i];
    }
  }

  lemma NotNewline(v: Byte)
    ensures EncodeValue(v) != '\n'
  {
  }

  lemma {:induction false} HeadNarrow(s: seq<Byte>)
    ensures Narrow(Head(s), LINE) && Column(Head(s)) == 4 * (|s| / 3 % 18) + |s| % 3
  {
    hide EncodeValue, Low2, Low4, High6, High4, High2, Low6, Or, Narrow, Column;
    if s == [] {
      EmptyNarrow();
    } else {
      var n := |s| - 1;
      HeadNarrow(s[..n]);
      EmitNarrow(Head(s[..n]), n, Prev(s, n), s[n]);
    }
  }

  lemma EmptyNarrow()
    ensures Narrow("", LINE) && Column("") == 0
  {
  }

  lemma EmitNarrow(t: string, n: nat, prev: Byte, b: Byte)
    requires Narrow(t, LINE) && Column(t) == 4 * (n / 3 % 18) + n % 3
    ensures Narrow(t + Emit(n, prev, b), LINE)
    ensures Column(t + Emit(n, prev, b)) == 4 * ((n + 1) / 3 % 18) + (n + 1) % 3
  {
    hide EncodeValue, Low2, Low4, High6, High4, High2, Low6, Or, Narrow, Column;
    var q := n / 3;
    assert n == 3 * q + n % 3;
    if n % 3 < 2 {
      var v := if n % 3 == 0 then High6(b) else Or(Low2(prev), High4(b));
      NotNewline(v);
      NarrowMore(t, EncodeValue(v), LINE);
      assert (n + 1) / 3 == q;
    } else {
      var v, w := Or(Low4(prev), High2(b)), Low6(b);
      NotNewline(v);
      NotNewline(w);
      NarrowMore(t, EncodeValue(v), LINE);
      var u := t + [EncodeValue(v)];
      NarrowMore(u, EncodeValue(w), LINE);
      assert (n + 1) / 3 == q + 1;
      EighteenStep(q);
      assert u + [EncodeValue(w)] == t + [EncodeValue(v), EncodeValue(w)];
      if (q + 1) % 18 == 0 {
        NarrowMore(u + [EncodeValue(w)], '\n', LINE);
        assert u + [EncodeValue(w)] + ['\n'] == t + Emit(n, prev, b);
      } else {
        assert u + [EncodeValue(w)] == t + Emit(n, prev, b);
      }
    }
  }

  /** No line of the text is longer than seventy-two characters. */
  lemma TextNarrow(s: seq<Byte>)
    ensures Narrow(Text(s), LINE) && Column(Text(s)) == 0
  {
    hide EncodeValue, Waiting, Narrow, Column, Head;
    HeadNarrow(s);
    var t := Head(s);
    if |s| % 3 == 0 {
      NarrowMore(t, '\n', LINE);
    } else {
      var c := EncodeValue(Waiting(s));
      NotNewline(Waiting(s));
      NarrowMore(t, c, LINE);
      NarrowMore(t + [c], '=', LINE);
      var u := t + [c] + ['='];
      if |s| % 3 == 1 {
        NarrowMore(u, '=', LINE);
        NarrowMore(u + ['='], '\n', LINE);
        assert u + ['='] + ['\n'] == Text(s);
      } else {
        NarrowMore(u, '\n', LINE);
        assert u + ['\n'] == Text(s);
      }
    }
  }

  /** What is missing to a last group of four is filled up with equals signs, and a line break ends the
  text. */
  lemma Padded(s: seq<Byte>)
    ensures |s| % 3 == 1 ==> |Text(s)| >= 3 && Text(s)[|Text(s)| - 3..] == "==\n"
    ensures |s| % 3 == 2 ==> |Text(s)| >= 2 && Text(s)[|Text(s)| - 2..] == "=\n"
    ensures |s| % 3 == 0 ==> Text(s) == Head(s) + "\n"
  {
    hide EncodeValue, Head;
    var t := Head(s) + [EncodeValue(Waiting(s))];
    assert |s| % 3 == 1 ==> Text(s) == t + "==\n";
    assert |s| % 3 == 2 ==> Text(s) == t + "=\n";
  }

  lemma HeadNext(s: seq<Byte>, b: Byte, e: string, r: seq<Byte>, u: string)
    requires Emit(|s|, Prev(s, |s|), b) == e && r == s + [b] && u == Head(s) + e
    ensures Head(r) == u
  {
    hide Head, Emit;
    HeadMore(s, b);
  }

  lemma FooHead()
    ensures Head([0x66, 0x6F, 0x6F]) == "Zm9v"
  {
    hide Head, Emit;
    NoHead();
    FooEmits();
    HeadNext([], 0x66, "Z", [0x66], "Z");
    HeadNext([0x66], 0x6F, "m", [0x66, 0x6F], "Zm");
    HeadNext([0x66, 0x6F], 0x6F, "9v", [0x66, 0x6F, 0x6F], "Zm9v");
  }

  lemma BarHead()
    ensures Head([0x66, 0x6F, 0x6F, 0x62]) == "Zm9vY" && Head([0x66, 0x6F, 0x6F, 0x62, 0x61]) == "Zm9vYm"
    ensures Head([0x66, 0x6F, 0x6F, 0x62, 0x61, 0x72]) == "Zm9vYmFy"
  {
    hide Head, Emit;
    FooHead();
    FooEmits();
    HeadNext([0x66, 0x6F, 0x6F], 0x62, "Y", [0x66, 0x6F, 0x6F, 0x62], "Zm9vY");
    HeadNext([0x66, 0x6F, 0x6F, 0x62], 0x61, "m", [0x66, 0x6F, 0x6F, 0x62, 0x61], "Zm9vYm");
    HeadNext([0x66, 0x6F, 0x6F, 0x62, 0x61], 0x72, "Fy", [0x66, 0x6F, 0x6F, 0x62, 0x61, 0x72], "Zm9vYmFy");
  }

  lemma NoHead()
    ensures Head([]) == ""
  {
  }

  lemma FooEmits()
    ensures Emit(0, 0, 0x66) == "Z" && Emit(1, 0x66, 0x6F) == "m" && Emit(2, 0x6F, 0x6F) == "9v"
    ensures Emit(3, 0x6F, 0x62) == "Y" && Emit(4, 0x62, 0x61) == "m" && Emit(5, 0x61, 0x72) == "Fy"
  {
    assert High6(0x66) as int == 25 && Or(Low2(0x66), High4(0x6F)) as int == 38;
    assert Or(Low4(0x6F), High2(0x6F)) as int == 61 && Low6(0x6F) as int == 47;
    assert High6(0x62) as int == 24 && Or(Low2(0x62), High4(0x61)) as int == 38;
    assert Or(Low4(0x61), High2(0x72)) as int == 5 && Low6(0x72) as int == 50;
  }

  /** Test vectors of RFC 4648, section 10: "foo", "foob", "fooba" and "foobar". */
  lemma FooText()
    ensures Text([0x66, 0x6F, 0x6F]) == "Zm9v\n" && Text([0x66, 0x6F, 0x6F, 0x62]) == "Zm9vYg==\n"
    ensures Text([0x66, 0x6F, 0x6F, 0x62, 0x61]) == "Zm9vYmE=\n" && Text([0x66, 0x6F, 0x6F, 0x62, 0x61, 0x72]) == "Zm9vYmFy\n"
  {
    hide Head;
    FooHead();
    BarHead();
    assert Low2(0x62) as int == 32 && Low4(0x61) as int == 4;
    assert EncodeValue(Low2(0x62)) == 'g' && EncodeValue(Low4(0x61)) == 'E';
  }

  // ---- the encoder -----------------------------------------------------------------------

  datatype Step = A | B | C

  /** base64_encodestate; fed is all that was encoded since the start. */
  class Encoder {
    var step: Step
    var result: Byte
    var stepcount: nat
    ghost var fed: seq<Byte>

    ghost predicate Valid()
      reads this
    {
      && step == StepOf(|fed|) && stepcount == |fed| / 3 % 18
      && (step != A ==> result == Waiting(fed))
    }

    // base64_init_encodestate
    constructor ()
      ensures Valid() && fed == []
    {
      step, result, stepcount := A, 0, 0;
      fed := [];
    }

    /** One byte in the loop of base64_encode_block, which enters it at the saved step. */
    method Take(b: Byte, code: array<char>, at: nat) returns (n: nat)
      requires Valid() && at + |Emit(|fed|, Prev(fed, |fed|), b)| <= code.Length
      modifies this, code
      ensures Valid() && fed == old(fed) + [b]
      ensures at <= n <= code.Length && code[..n] == old(code[..at]) + Emit(|old(fed)|, Prev(old(fed), |old(fed)|), b)
    {
      hide EncodeValue, High6, Low2, High4, Low4, High2, Low6, Or;
      ghost var was := code[..at];
      StepTaken(fed, b);
      n := at;
      match step {
        case A =>
          code[n] := EncodeValue(High6(b));
          n := n + 1;
          result := Low2(b);
          step := B;
        case B =>
          code[n] := EncodeValue(Or(result, High4(b)));
          n := n + 1;
          result := Low4(b);
          step := C;
        case C =>
          code[n] := EncodeValue(Or(result, High2(b)));
          result := Low6(b);
          code[n + 1] := EncodeValue(result);
          n := n + 2;
          stepcount := stepcount + 1;
          if stepcount == LINE / 4 {
            code[n] := '\n';
            n := n + 1;
            stepcount := 0;
          }
          step := A;
      }
      fed := fed + [b];
      assert code[..at] == was;
    }

    /** base64_encode_block: writes what reading plain adds to the text, and nothing beyond. */
    method EncodeBlock(plain: seq<Byte>, code: array<char>) returns (n: nat)
      requires Valid() && Size(|fed| + |plain|) - Size(|fed|) <= code.Length
      modifies this, code
      ensures Valid() && fed == old(fed) + plain
      ensures n <= code.Length && Head(fed) == Head(old(fed)) + code[..n]
      ensures n == Size(|fed|) - Size(|old(fed)|)
    {
      hide Emit, Size, Valid;
      n := 0;
      ghost var start := fed;
      HeadSize(fed);
      for i := 0 to |plain|
        invariant Valid() && fed == start + plain[..i] && n <= code.Length
        invariant Head(fed) == Head(start) + code[..n]
        invariant n == Size(|fed|) - Size(|start|)
      {
        SizeGrows(|fed| + 1, |start| + |plain|);
        EmitSize(|fed|, Prev(fed, |fed|), plain[i]);
        HeadMore(fed, plain[i]);
        ghost var before := fed;
        assert start + plain[..i + 1] == before + [plain[i]];
        n := Take(plain[i], code, n);
      }
      assert plain[..|plain|] == plain;
    }

    /** base64_encode_blockend: writes the rest of the text. */
    method EncodeBlockEnd(code: array<char>) returns (n: nat)
      requires Valid() && code.Length >= 4
      modifies code
      ensures n <= code.Length && Head(fed) + code[..n] == Text(fed)
    {
      hide EncodeValue, Waiting, Head;
      match step {
        case B =>
          code[0] := EncodeValue(result);
          code[1], code[2], code[3] := '=', '=', '\n';
          n := 4;
        case C =>
          code[0] := EncodeValue(result);
          code[1], code[2] := '=', '\n';
          n := 3;
        case A =>
          code[0] := '\n';
          n := 1;
      }
      assert code[..n] == Closing(fed);
    }
  }

  function StepOf(n: nat): Step {
    if n % 3 == 0 then A else if n % 3 == 1 then B else C
  }

  lemma StepTaken(s: seq<Byte>, b: Byte)
    ensures var t := s + [b];
      && |t| / 3 % 18 == (if |s| % 3 < 2 then |s| / 3 % 18 else if |s| / 3 % 18 + 1 == 18 then 0 else |s| / 3 % 18 + 1)
      && StepOf(|t|) == (if |s| % 3 == 0 then B else if |s| % 3 == 1 then C else A)
      && (|s| % 3 == 0 ==> Waiting(t) == Low2(b))
      && (|s| % 3 == 1 ==> Waiting(t) == Low4(b) && Waiting(s) == Low2(Prev(s, |s|)))
      && (|s| % 3 == 2 ==> Waiting(s) == Low4(Prev(s, |s|)) && ((|s| / 3 + 1) % (LINE / 4) == 0 <==> |s| / 3 % 18 + 1 == 18))
  {
    hide Low2, Low4;
    var q := |s| / 3;
    if |s| % 3 == 2 {
      assert (|s| + 1) / 3 == q + 1 && (|s| + 1) % 3 == 0;
      EighteenStep(q);
    } else {
      assert (|s| + 1) / 3 == q;
    }
  }

  lemma SizeGrows(m: nat, n: nat)
    requires m <= n
    ensures Size(m) <= Size(n)
  {
    Divides(m, n, 3);
    Divides(m / 3, n / 3, 18);
    if m / 3 == n / 3 {
      assert m == 3 * (m / 3) + m % 3 && n == 3 * (n / 3) + n % 3;
    }
  }

  lemma Divides(m: nat, n: nat, d: nat)
    requires m <= n && (d == 3 || d == 18)
    ensures m / d <= n / d
  {
  }

  // ---- the decoder -----------------------------------------------------------------------

  lemma PartialByStep(vs: seq<Byte>, v: Byte)
    ensures |vs| % 4 == 0 ==> Completes(|vs|, Partial(vs), v) == [] && Partial(vs + [v]) == Bits6(v)
    ensures |vs| % 4 == 1 ==> Completes(|vs|, Partial(vs), v) == [Or(Partial(vs), Bits2(v))] && Partial(vs + [v]) == Bits4(v)
    ensures |vs| % 4 == 2 ==> Completes(|vs|, Partial(vs), v) == [Or(Partial(vs), Bits4High(v))] && Partial(vs + [v]) == Bits2Low(v)
    ensures |vs| % 4 == 3 ==> Completes(|vs|, Partial(vs), v) == [Or(Partial(vs), Low6(v))]
    ensures |vs + [v]| % 4 == if |vs| % 4 == 3 then 0 else |vs| % 4 + 1
  {
    hide Bits6, Bits2, Bits4, Bits4High, Bits2Low, Low6, Or;
    PartialMore(vs, v);
  }

  /** base64_decodestate, its steps counted from zero; vs are the values read since the start. */
  class Decoder {
    var step: nat
    var plainchar: Byte
    ghost var vs: seq<Byte>

    ghost predicate Valid()
      reads this
    {
      step == |vs| % 4 && (step != 0 ==> plainchar == Partial(vs))
    }

    // base64_init_decodestate
    constructor ()
      ensures Valid() && vs == []
    {
      step, plainchar := 0, 0;
      vs := [];
    }

    /** One value in the loop of base64_decode_block; the byte begun stands at index at. */
    method Take(v: Byte, plain: array<Byte>, at: nat) returns (n: nat)
      requires step == |vs| % 4 && at < plain.Length && (step != 0 ==> plain[at] == Partial(vs))
      requires (step == 1 || step == 2) ==> at + 1 < plain.Length
      modifies this`step, this`vs, plain
      ensures vs == old(vs) + [v] && step == |vs| % 4 && n <= plain.Length && at <= n
      ensures step != 0 ==> n < plain.Length && plain[n] == Partial(vs)
      ensures plain[..n] == old(plain[..at]) + Completes(|old(vs)|, Partial(old(vs)), v)
      ensures forall i :: n < i < plain.Length ==> plain[i] == old(plain[i])
    {
      hide Bits6, Bits2, Bits4, Bits4High, Bits2Low, Low6, Or, Partial, Completes;
      PartialByStep(vs, v);
      ghost var was := plain[..at];
      n := at;
      if step == 0 {
        plain[n] := Bits6(v);
        step := 1;
      } else if step == 1 {
        plain[n] := Or(plain[n], Bits2(v));
        n := n + 1;
        plain[n] := Bits4(v);
        step := 2;
      } else if step == 2 {
        plain[n] := Or(plain[n], Bits4High(v));
        n := n + 1;
        plain[n] := Bits2Low(v);
        step := 3;
      } else {
        plain[n] := Or(plain[n], Low6(v));
        n := n + 1;
        step := 0;
      }
      vs := vs + [v];
      assert plain[..at] == was;
    }

    /** base64_decode_block: hands out the bytes that code completes, and touches nothing above the
    index it returns. */
    method DecodeBlock(code: string, plain: array<Byte>) returns (n: nat)
      requires Valid() && AllDecodable(code)
      requires Threes(|vs| + |Values(code)|) - Threes(|vs|) < plain.Length
      modifies this, plain
      ensures Valid() && vs == old(vs) + Values(code)
      ensures n < plain.Length && Bytes(vs) == Bytes(old(vs)) + plain[..n]
      ensures n == Threes(|vs|) - Threes(|old(vs)|)
      ensures forall i :: n < i < plain.Length ==> plain[i] == old(plain[i])
    {
      hide Bytes, Partial, Completes, Decodable, DecodeValue, Values, Threes;
      ghost var start := vs;
      BytesCount(vs);
      ThreesGrow(|vs|, |vs| + |Values(code)|);
      n := 0;
      plain[0] := plainchar;
      assert code[..0] == "";
      Newline("");
      for i := 0 to |code|
        invariant AllDecodable(code[..i]) && vs == start + Values(code[..i]) && step == |vs| % 4
        invariant n < plain.Length && (step != 0 ==> plain[n] == Partial(vs))
        invariant Bytes(vs) == Bytes(start) + plain[..n]
        invariant forall j :: n < j < plain.Length ==> plain[j] == old(plain[j])
      {
        ValuesNext(code, i);
        OnlyAlphabet(code[i]);
        var fragment := DecodeValue(code[i]);
        if fragment >= 0 {
          var v := fragment as Byte;
          BytesMore(vs, v);
          BytesCount(vs);
          BytesCount(vs + [v]);
          ValuesWithin(code, i + 1);
          Room(|start|, |vs|, |start| + |Values(code)|);
          n := Take(v, plain, n);
        }
      }
      assert code[..|code|] == code;
      BytesCount(vs);
      plainchar := plain[n];
    }
  }

  lemma ValuesNext(t: string, i: nat)
    requires AllDecodable(t) && i < |t|
    ensures Decodable(t[i]) && AllDecodable(t[..i]) && AllDecodable(t[..i + 1]) && DecodeValue(t[i]) < 64
    ensures Values(t[..i + 1]) == Values(t[..i]) + (if DecodeValue(t[i]) < 0 then [] else [DecodeValue(t[i]) as Byte])
  {
    hide Decodable, DecodeValue;
    OnlyAlphabet(t[i]);
    assert t[..i + 1][..i] == t[..i];
  }

  lemma {:induction false} ValuesWithin(t: string, i: nat)
    requires AllDecodable(t) && i <= |t|
    ensures AllDecodable(t[..i]) && |Values(t[..i])| <= |Values(t)|
    decreases |t|
  {
    hide Decodable, DecodeValue;
    if i == |t| {
      assert t[..i] == t;
    } else {
      ValuesWithin(t[..|t| - 1], i);
      assert t[..|t| - 1][..i] == t[..i];
    }
  }

  /** One more value of what is to come still ends within its bytes. */
  lemma Room(start: nat, k: nat, end: nat)
    requires start <= k && k + 1 <= end
    ensures Threes(k + 1) <= Threes(end)
    ensures Threes(k + 1) == Threes(k) + (if k % 4 == 0 then 0 else 1)
  {
    var j, r := k / 4, k % 4;
    Fours(3 * j, 3 * r);
    Fours(3 * j, 3 * r + 3);
    assert 3 * k == 4 * (3 * j) + 3 * r;
    FoursGrow(3 * (k + 1), 3 * end);
  }

  lemma ThreesGrow(m: nat, n: nat)
    requires m <= n
    ensures Threes(m) <= Threes(n)
  {
    FoursGrow(3 * m, 3 * n);
  }

  lemma Fours(a: nat, b: nat)
    ensures (4 * a + b) / 4 == a + b / 4
  {
  }

  lemma FoursGrow(m: nat, n: nat)
    requires m <= n
    ensures m / 4 <= n / 4
  {
  }

  // ---- both together ---------------------------------------------------------------------

  function Joined<T>(parts: seq<seq<T>>): seq<T> {
    if parts == [] then [] else Joined(parts[..|parts| - 1]) + parts[|parts| - 1]
  }

  /** Encoding pieces, however cut, gives the text. */
  method EncodePieces(parts: seq<seq<Byte>>) returns (text: string)
    ensures text == Text(Joined(parts))
  {
    hide Head, Text, Size;
    var e := new Encoder();
    text := "";
    HeadNone();
    for i := 0 to |parts|
      invariant fresh(e) && e.Valid() && e.fed == Joined(parts[..i]) && text == Head(e.fed)
    {
      assert parts[..i + 1][..i] == parts[..i];
      SizeBound(|e.fed|, |parts[i]|);
      var code := new char[2 * |parts[i]| + 2];
      var n := e.EncodeBlock(parts[i], code);
      text := text + code[..n];
    }
    assert parts[..|parts|] == parts;
    var code := new char[4];
    var n := e.EncodeBlockEnd(code);
    text := text + code[..n];
  }

  lemma HeadNone()
    ensures Head([]) == ""
  {
  }

  /** Twice the input and two more characters are always room enough. */
  lemma SizeBound(m: nat, n: nat)
    ensures Size(m + n) <= Size(m) + 2 * n + 2
  {
    var a, b := m / 3, (m + n) / 3;
    assert m == 3 * a + m % 3 && m + n == 3 * b + (m + n) % 3;
    Divides(a, b, 18);
    assert b / 18 <= a / 18 + (b - a) / 18 + 1 by {
      Eighteens(a, b - a);
    }
  }

  lemma Eighteens(a: nat, d: nat)
    ensures (a + d) / 18 <= a / 18 + d / 18 + 1
  {
  }

  /** Decoding pieces, however cut, gives what the whole decodes to. */
  method DecodePieces(parts: seq<string>) returns (plain: seq<Byte>)
    requires AllDecodable(Joined(parts))
    ensures plain == Decoded(Joined(parts))
  {
    hide Bytes, Values, Decodable;
    var d := new Decoder();
    plain := [];
    NothingDecoded();
    for i := 0 to |parts|
      invariant AllDecodable(Joined(parts[..i]))
      invariant fresh(d) && d.Valid() && d.vs == Values(Joined(parts[..i])) && plain == Bytes(d.vs)
    {
      JoinedPart(parts, i);
      Third4(|d.vs|, |Values(parts[i])|);
      ValuesPlus(Joined(parts[..i]), parts[i]);
      var out := new Byte[|parts[i]| + 2];
      var n := d.DecodeBlock(parts[i], out);
      plain := plain + out[..n];
    }
    assert parts[..|parts|] == parts;
  }

  lemma NothingDecoded()
    ensures AllDecodable("") && Values("") == [] && Bytes([]) == []
  {
  }

  lemma Third4(m: nat, n: nat)
    ensures Threes(m + n) - Threes(m) < n + 2
  {
    Fours(m - m / 4, 0);
    assert m == 4 * (m / 4) + m % 4;
  }

  lemma {:induction false} JoinedPart(parts: seq<string>, i: nat)
    requires i < |parts| && AllDecodable(Joined(parts))
    ensures Joined(parts[..i + 1]) == Joined(parts[..i]) + parts[i]
    ensures AllDecodable(parts[i]) && AllDecodable(Joined(parts[..i]))
    decreases |parts|
  {
    hide Decodable;
    assert parts[..i + 1][..i] == parts[..i];
    var whole := Joined(parts);
    var first := Joined(parts[..|parts| - 1]);
    if i == |parts| - 1 {
      assert parts[..i + 1] == parts;
      assert forall j :: 0 <= j < |first| ==> first[j] == whole[j];
      assert forall j :: 0 <= j < |parts[i]| ==> parts[i][j] == whole[|first| + j];
    } else {
      assert forall j :: 0 <= j < |first| ==> first[j] == whole[j];
      JoinedPart(parts[..|parts| - 1], i);
      assert parts[..|parts| - 1][..i] == parts[..i] && parts[..|parts| - 1][..i + 1] == parts[..i + 1];
    }
  }

  /** Any cutting of the input of the encoder and any cutting of its output for the decoder: the
  bytes come back. */
  method ThereAndBack(parts: seq<seq<Byte>>, cuts: seq<nat>) returns (plain: seq<Byte>)
    requires forall i, j :: 0 <= i < j < |cuts| ==> cuts[i] <= cuts[j]
    ensures plain == Joined(parts)
  {
    hide Text, Decoded, AllDecodable;
    var text := EncodePieces(parts);
    var pieces: seq<string> := [];
    var at := 0;
    assert text[..0] == "";
    for i := 0 to |cuts|
      invariant 0 <= at <= |text| && Joined(pieces) == text[..at]
    {
      var to := if cuts[i] > |text| then |text| else if cuts[i] < at then at else cuts[i];
      JoinedMore(pieces, text[at..to]);
      assert text[..to] == text[..at] + text[at..to];
      pieces := pieces + [text[at..to]];
      at := to;
    }
    JoinedMore(pieces, text[at..]);
    assert text == text[..at] + text[at..];
    RoundTrip(Joined(parts));
    plain := DecodePieces(pieces + [text[at..]]);
  }

  lemma JoinedMore<T>(parts: seq<seq<T>>, p: seq<T>)
    ensures Joined(parts + [p]) == Joined(parts) + p
  {
    assert (parts + [p])[..|parts|] == parts;
  }
}
