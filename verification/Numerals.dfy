/** The readers that turn matched tokens into numbers (src/cli_parser/cparser_token.c), for words of
32 and 64 bits.  Both watch for overflow by undoing each step; in the decimal readers that misses
the carry out of the last addition. */
module Numerals {
  import opened Tokens

  datatype Result = Success(value: int) | NotOk

  /** The two word sizes, as the number of their values. */
  predicate Size(w: nat) {
    w == 0x1_0000_0000 || w == 0x1_0000_0000_0000_0000
  }

  function HexDigit(c: char): (d: nat)
    requires XDigit(c)
    ensures d < 16
  {
    if Digit(c) then c as int - '0' as int
    else if 'a' <= c <= 'f' then c as int - 'a' as int + 10
    else c as int - 'A' as int + 10
  }

  function HexValue(s: string): nat
    requires XDigits(s)
  {
    if s == "" then 0 else HexValue(s[..|s| - 1]) * 16 + HexDigit(s[|s| - 1])
  }

  lemma {:induction false} HexGrows(s: string, n: nat)
    requires XDigits(s) && n <= |s|
    ensures HexValue(s[..n]) <= HexValue(s)
  {
    if n == |s| {
      assert s[..n] == s;
    } else {
      HexGrows(s[..|s| - 1], n);
      assert s[..|s| - 1][..n] == s[..n];
    }
  }

  lemma {:induction false} DecGrows(s: string, n: nat)
    requires Digits(s) && n <= |s|
    ensures Value(s[..n]) <= Value(s)
  {
    if n == |s| {
      assert s[..n] == s;
    } else {
      DecGrows(s[..|s| - 1], n);
      assert s[..|s| - 1][..n] == s[..n];
    }
  }

  /** One step of the hexadecimal readers: (old << 4) + d in a word, undone again. */
  lemma HexStep(w: nat, prev: nat, d: nat)
    requires Size(w) && prev < w && d < 16
    ensures var next := (prev * 16 % w + d) % w; (next - d) % w / 16 == prev <==> prev * 16 + d < w
    ensures prev * 16 + d < w ==> (prev * 16 % w + d) % w == prev * 16 + d
  {
    if w == 0x1_0000_0000 {
      HexStep32(prev, d);
    } else {
      HexStep64(prev, d);
    }
  }

  lemma HexStep32(prev: nat, d: nat)
    requires prev < 0x1_0000_0000 && d < 16
    ensures var w := 0x1_0000_0000; var next := (prev * 16 % w + d) % w; (next - d) % w / 16 == prev <==> prev * 16 + d < w
    ensures var w := 0x1_0000_0000; prev * 16 + d < w ==> (prev * 16 % w + d) % w == prev * 16 + d
  {
    var low := prev % 0x1000_0000 * 16;
    assert prev * 16 % 0x1_0000_0000 == low;
    assert (low + d) % 0x1_0000_0000 == low + d;
  }

  lemma HexStep64(prev: nat, d: nat)
    requires prev < 0x1_0000_0000_0000_0000 && d < 16
    ensures var w := 0x1_0000_0000_0000_0000; var next := (prev * 16 % w + d) % w; (next - d) % w / 16 == prev <==> prev * 16 + d < w
    ensures var w := 0x1_0000_0000_0000_0000; prev * 16 + d < w ==> (prev * 16 % w + d) % w == prev * 16 + d
  {
    var low := prev % 0x1000_0000_0000_0000 * 16;
    assert prev * 16 % 0x1_0000_0000_0000_0000 == low;
    assert (low + d) % 0x1_0000_0000_0000_0000 == low + d;
  }

  /** Adding d and taking it away again within a word. */
  lemma Undone(w: nat, low: nat, d: nat)
    requires Size(w) && low < w && d < 16
    ensures ((low + d) % w - d) % w == low
  {
  }

  /** A product below 16 words wraps to itself less some words. */
  lemma Wrapped(w: nat, m: nat)
    requires Size(w) && m < 16 * w
    ensures m % w == m - m / w * w && m / w < 16 && (m < w <==> m % w == m)
    ensures m % 16 == 0 ==> m % w % 16 == 0
  {
  }

  lemma HexValueStep(s: string, n: nat)
    requires XDigits(s) && n < |s|
    ensures HexValue(s[..n + 1]) == HexValue(s[..n]) * 16 + HexDigit(s[n])
  {
    assert s[..n + 1][..n] == s[..n];
  }

  // cparser_get_hex and cparser_get_hex64
  method GetHex(t: string, w: nat) returns (r: Result)
    requires Size(w) && (t == "" || HexWord(t))
    ensures t == "" ==> r == NotOk
    ensures t != "" ==> r == if HexValue(t[2..]) < w then Success(HexValue(t[2..])) else NotOk
  {
    if t == "" {
      return NotOk;
    }
    var next, prev := 0, 0;
    ghost var s := t[2..];
    for n := 2 to |t|
      invariant prev == next == HexValue(s[..n - 2]) < w
    {
      HexValueStep(s, n - 2);
      assert t[n] == s[n - 2];
      var d := HexDigit(t[n]);
      next := (prev * 16 % w + d) % w;
      HexStep(w, prev, d);
      if (next - d) % w / 16 != prev {
        HexGrows(s, n - 1);
        return NotOk;
      }
      prev := next;
    }
    assert s[..|t| - 2] == s;
    r := Success(next);
  }

  // ---- decimal ---------------------------------------------------------------------------

  /** The check after the first n digits passes: ten times what is held stays within a word. */
  predicate Passes(s: string, n: nat, w: nat)
    requires Digits(s) && n <= |s| && Size(w)
  {
    Value(s[..n]) % w * 10 < w
  }

  /** What the decimal readers return. */
  function DecRead(s: string, w: nat): Result
    requires Digits(s) && Size(w)
  {
    if forall n :: 0 <= n < |s| ==> Passes(s, n, w) then Success(Value(s) % w) else NotOk
  }

  lemma DecStep(w: nat, prev: nat, d: nat)
    requires Size(w) && prev < w && d < 10
    ensures var next := (prev * 10 % w + d) % w; (next - d) % w / 10 == prev <==> prev * 10 < w
  {
    Wrapped(w, prev * 10);
    Undone(w, prev * 10 % w, d);
  }

  lemma WrapStep(w: nat, v: nat, d: nat)
    requires Size(w)
    ensures (v % w * 10 % w + d) % w == (v * 10 + d) % w
  {
    assert v == v / w * w + v % w;
    assert v * 10 + d == (v % w * 10 + d) + v / w * 10 * w;
  }

  // cparser_get_uint_internal and cparser_get_uint64_internal
  method GetDec(s: string, w: nat) returns (r: Result)
    requires Size(w) && Digits(s)
    ensures r == DecRead(s, w)
  {
    var next, prev := 0, 0;
    for n := 0 to |s|
      invariant prev == next == Value(s[..n]) % w
      invariant forall m :: 0 <= m < n ==> Passes(s, m, w)
    {
      assert s[..n + 1][..n] == s[..n] && s[..n + 1][n] == s[n];
      var d := s[n] as int - '0' as int;
      next := (prev * 10 % w + d) % w;
      DecStep(w, prev, d);
      if (next - d) % w / 10 != prev {
        assert !Passes(s, n, w);
        return NotOk;
      }
      WrapStep(w, Value(s[..n]), d);
      prev := next;
    }
    assert s[..|s|] == s;
    r := Success(next);
  }

  lemma ValueStep(s: string, n: nat)
    requires Digits(s) && n < |s|
    ensures Value(s[..n + 1]) == Value(s[..n]) * 10 + (s[n] as int - '0' as int)
  {
    assert s[..n + 1][..n] == s[..n];
  }

  /** Every numeral that fits is read exactly. */
  lemma DecExact(s: string, w: nat)
    requires Size(w) && Digits(s) && Value(s) < w
    ensures DecRead(s, w) == Success(Value(s))
  {
    hide Value, Passes;
    forall n | 0 <= n < |s| ensures Passes(s, n, w) {
      ValueStep(s, n);
      DecGrows(s, n + 1);
      PassesSmall(s, n, w);
    }
    Whole(w, Value(s));
  }

  /** The carry that the check misses: n digits come to the size of the word or up to three more. */
  predicate Carries(s: string, n: nat, w: nat)
    requires Digits(s) && n <= |s| && Size(w)
  {
    w <= Value(s[..n]) <= w + 3
  }

  /** The number of digits with which s first reaches w. */
  lemma {:induction false} Reaches(s: string, w: nat) returns (n: nat)
    requires Size(w) && Digits(s) && Value(s) >= w
    ensures n < |s| && Value(s[..n]) < w <= Value(s[..n + 1])
  {
    var m := |s| - 1;
    if Value(s[..m]) < w {
      n := m;
      assert s[..n + 1] == s;
    } else {
      n := Reaches(s[..m], w);
      assert s[..m][..n] == s[..n] && s[..m][..n + 1] == s[..n + 1];
    }
  }

  /** After the first n digits the value is in the missed carry, and the remaining ones pass. */
  predicate Slips(s: string, w: nat, n: nat)
    requires Digits(s) && Size(w)
  {
    n <= |s| && Carries(s, n, w) && forall m :: n <= m < |s| ==> Passes(s, m, w)
  }

  lemma SlipsSo(s: string, w: nat) returns (n: nat)
    requires Size(w) && Digits(s) && Value(s) >= w && DecRead(s, w).Success?
    ensures Slips(s, w, n)
  {
    hide Value;
    n := Reaches(s, w);
    ValueStep(s, n);
    assert Passes(s, n, w);
    Whole(w, Value(s[..n]));
    n := n + 1;
  }

  lemma SlipsAtEnd(s: string, w: nat)
    requires Size(w) && Digits(s) && Value(s) == w
    ensures DecRead(s, w) == Success(0)
  {
    hide Value, Passes;
    assert w % w == 0;
    assert s[..|s|] == s;
    SlipsThen(s, w, |s|);
  }

  lemma SlipsThen(s: string, w: nat, n: nat)
    requires Size(w) && Digits(s) && Slips(s, w, n)
    ensures DecRead(s, w).Success?
  {
    hide Passes, Value;
    forall m | 0 <= m < n ensures Passes(s, m, w) {
      ValueStep(s, m);
      DecGrows(s[..n], m + 1);
      assert s[..n][..m + 1] == s[..m + 1];
      PassesSmall(s, m, w);
    }
  }

  lemma PassesSmall(s: string, n: nat, w: nat)
    requires Size(w) && Digits(s) && n <= |s| && Value(s[..n]) * 10 <= w + 3
    ensures Passes(s, n, w)
  {
    hide Value;
    Small(w, Value(s[..n]));
  }

  lemma Whole(w: nat, v: nat)
    requires Size(w) && v < w
    ensures v % w == v
  {
    if w == 0x1_0000_0000 {
    } else {
    }
  }

  lemma Small(w: nat, v: nat)
    requires Size(w) && v * 10 <= w + 3
    ensures v % w == v && v * 10 < w
  {
    if w == 0x1_0000_0000 {
    } else {
    }
  }

  /** A numeral too large is accepted exactly when some of its first digits hit the missed carry and
  the remaining ones pass. */
  lemma DecOversize(s: string, w: nat)
    requires Size(w) && Digits(s) && Value(s) >= w
    ensures DecRead(s, w).Success? <==> exists n :: Slips(s, w, n)
  {
    hide DecRead, Slips, Value;
    if DecRead(s, w).Success? {
      var n := SlipsSo(s, w);
    }
    if n :| Slips(s, w, n) {
      SlipsThen(s, w, n);
    }
  }

  /** What the readers hold after a missed carry is a single digit; they go on as if the numeral began
  with it. */
  function Restart(s: string, n: nat, w: nat): (r: string)
    requires Digits(s) && Size(w) && n <= |s| && Carries(s, n, w)
    ensures Digits(r) && |r| == 1 + |s| - n
  {
    var first := [('0' as int + (Value(s[..n]) - w)) as char];
    var r := first + s[n..];
    assert forall i :: 0 < i < |r| ==> r[i] == s[n + i - 1];
    r
  }

  lemma RestartFirst(s: string, n: nat, w: nat)
    requires Digits(s) && Size(w) && n <= |s| && Carries(s, n, w)
    ensures Value(Restart(s, n, w)[..1]) == Value(s[..n]) - w
  {
    var d := Restart(s, n, w)[..1];
    assert d[..0] == "" && |d| == 1;
  }

  /** After the missed carry the two numerals differ by multiples of the word size. */
  lemma {:induction false} RestartApart(s: string, n: nat, w: nat, m: nat) returns (c: nat)
    requires Digits(s) && Size(w) && n <= m <= |s| && Carries(s, n, w)
    ensures Value(s[..m]) == Value(Restart(s, n, w)[..1 + m - n]) + c * w
    decreases m
  {
    hide Restart;
    if m == n {
      RestartFirst(s, n, w);
      c := 1;
    } else {
      var d := RestartApart(s, n, w, m - 1);
      c := 10 * d;
      ValueStep(s, m - 1);
      ValueStep(Restart(s, n, w), m - n);
      RestartDigit(s, n, w, m - n);
    }
  }

  lemma RestartDigit(s: string, n: nat, w: nat, i: nat)
    requires Digits(s) && Size(w) && n <= |s| && Carries(s, n, w) && 0 < i <= |s| - n
    ensures Restart(s, n, w)[i] == s[n + i - 1]
  {
  }

  lemma SameRemainder(w: nat, a: nat, b: nat, c: nat)
    requires Size(w) && a == b + c * w
    ensures a % w == b % w
  {
    if w == 0x1_0000_0000 {
    } else {
    }
  }

  lemma PassesRestart(s: string, n: nat, w: nat, m: nat)
    requires Digits(s) && Size(w) && n <= m <= |s| && Carries(s, n, w)
    ensures Value(s[..m]) % w == Value(Restart(s, n, w)[..1 + m - n]) % w
    ensures Passes(s, m, w) <==> Passes(Restart(s, n, w), 1 + m - n, w)
  {
    hide Restart, Value;
    var c := RestartApart(s, n, w, m);
    SameRemainder(w, Value(s[..m]), Value(Restart(s, n, w)[..1 + m - n]), c);
  }

  lemma PassesBefore(s: string, n: nat, w: nat, m: nat)
    requires Digits(s) && Size(w) && m < n <= |s| && Carries(s, n, w)
    ensures Passes(s, m, w)
  {
    hide Value, Passes;
    ValueStep(s, m);
    DecGrows(s[..n], m + 1);
    assert s[..n][..m + 1] == s[..m + 1];
    PassesSmall(s, m, w);
  }

  /** Past a missed carry the readers do exactly what they would do with the shorter numeral. */
  lemma DecRestarts(s: string, n: nat, w: nat)
    requires Digits(s) && Size(w) && n <= |s| && Carries(s, n, w)
    ensures DecRead(s, w) == DecRead(Restart(s, n, w), w)
  {
    hide Value, Passes, Restart;
    var r := Restart(s, n, w);
    PassesNone(r, w);
    assert s[..|s|] == s && r[..|r|] == r;
    PassesRestart(s, n, w, |s|);
    forall m | 0 <= m < |s| ensures Passes(s, m, w) || (m >= n && !Passes(r, 1 + m - n, w)) {
      if m < n {
        PassesBefore(s, n, w, m);
      } else {
        PassesRestart(s, n, w, m);
      }
    }
    forall i | 0 <= i < |r| ensures Passes(r, i, w) || (i > 0 && !Passes(s, n + i - 1, w)) {
      if i > 0 {
        PassesRestart(s, n, w, n + i - 1);
      }
    }
  }

  lemma PassesNone(s: string, w: nat)
    requires Digits(s) && Size(w)
    ensures Passes(s, 0, w)
  {
    assert s[..0] == "";
  }

  /** The numerals that the decimal readers accept, told from their digits alone: those that fit, and
  those whose first digits exceed the word by at most three and which, with the excess in place of
  these digits, are such numerals again. */
  ghost predicate Taken(s: string, w: nat)
    requires Digits(s) && Size(w)
    decreases |s|
  {
    Value(s) < w || exists n :: 2 <= n <= |s| && Carries(s, n, w) && Taken(Restart(s, n, w), w)
  }

  lemma CarryLater(s: string, n: nat, w: nat)
    requires Digits(s) && Size(w) && n <= |s| && Carries(s, n, w)
    ensures n >= 2
  {
    assert s[..0] == "";
    if |s| > 0 {
      ValueStep(s, 0);
    }
  }

  /** An oversized numeral is rejected unless some of its first digits come to the word size or up to
  three more, and it is accepted exactly as these rules go on. */
  lemma {:induction false} DecTaken(s: string, w: nat)
    requires Digits(s) && Size(w)
    ensures DecRead(s, w).Success? <==> Taken(s, w)
    decreases |s|
  {
    hide Value, DecRead, Carries, Restart;
    if Value(s) < w {
      DecExact(s, w);
    } else {
      if DecRead(s, w).Success? {
        var n := SlipsSo(s, w);
        SlipsCarries(s, w, n);
        CarryLater(s, n, w);
        DecRestarts(s, n, w);
        DecTaken(Restart(s, n, w), w);
      }
      if n :| 2 <= n <= |s| && Carries(s, n, w) && Taken(Restart(s, n, w), w) {
        DecRestarts(s, n, w);
        DecTaken(Restart(s, n, w), w);
      }
    }
  }

  lemma SlipsCarries(s: string, w: nat, n: nat)
    requires Digits(s) && Size(w) && Slips(s, w, n)
    ensures n <= |s| && Carries(s, n, w)
  {
  }

  /** The smallest such numeral of 32 bits reads as zero. */
  lemma CarryMissed()
    ensures Digits("4294967296") && Value("4294967296") == 0x1_0000_0000
    ensures DecRead("4294967296", 0x1_0000_0000) == Success(0)
  {
    var s := "4294967296";
    var v := [0, 4, 42, 429, 4294, 42949, 429496, 4294967, 42949672, 429496729, 4294967296];
    for n := 0 to 10
      invariant Value(s[..n]) == v[n]
    {
      ValueStep(s, n);
    }
    assert s[..10] == s;
    SlipsAtEnd(s, 0x1_0000_0000);
  }

  // ---- signed ----------------------------------------------------------------------------

  predicate Signed(t: string) {
    t != "" && (t[0] == '-' || t[0] == '+')
  }

  function Magnitude(t: string): string {
    if Signed(t) then t[1..] else t
  }

  /** The number an integer token stands for. */
  function Denotes(t: string): int
    requires Digits(Magnitude(t))
  {
    if Signed(t) && t[0] == '-' then 0 - Value(Magnitude(t)) else Value(Magnitude(t))
  }

  /** v fits a signed word. */
  predicate Fits(v: int, w: nat) {
    0 - w <= 2 * v < w
  }

  // cparser_get_int and cparser_get_int64
  method GetInt(t: string, w: nat) returns (r: Result)
    requires Size(w) && (t == "" || IntWord(t))
    ensures Digits(Magnitude(t))
    ensures t == "" ==> r == NotOk
    ensures t != "" && Value(Magnitude(t)) < w ==> r == if Fits(Denotes(t), w) then Success(Denotes(t)) else NotOk
    ensures r.Success? ==> Fits(r.value, w) && (r.value - Denotes(t)) % w == 0
  {
    hide DecRead, Value;
    if t == "" {
      return NotOk;
    }
    var negative, first := false, 0;
    if t[0] == '-' {
      negative, first := true, 1;
    }
    if t[0] == '+' {
      first := 1;
    }
    assert t[first..] == Magnitude(t);
    var u := GetDec(t[first..], w);
    if Value(Magnitude(t)) < w {
      DecExact(Magnitude(t), w);
    }
    if u.NotOk? {
      return NotOk;
    }
    var v := u.value;
    Congruent(Magnitude(t), w, v);
    if !negative {
      if v > w / 2 - 1 {
        return NotOk;
      }
      r := Success(v);
    } else {
      if v > w / 2 {
        return NotOk;
      }
      r := Success(0 - v);
    }
  }

  /** Any success is the value up to multiples of the word size, either way round. */
  lemma Congruent(s: string, w: nat, v: int)
    requires Size(w) && Digits(s) && DecRead(s, w) == Success(v)
    ensures 0 <= v < w && (v - Value(s)) % w == 0 && (Value(s) - v) % w == 0
  {
    hide Passes, Value;
    Remainder(w, Value(s));
  }

  lemma Remainder(w: nat, m: nat)
    requires Size(w)
    ensures 0 <= m % w < w && (m % w - m) % w == 0 && (m - m % w) % w == 0
  {
    if w == 0x1_0000_0000 {
    } else {
    }
  }

  // ---- numbers written and read again --------------------------------------------------------

  /** A digit stands for its place among the digits. */
  lemma HexDigitPlace(c: char)
    requires XDigit(c)
    ensures "0123456789abcdef"[HexDigit(c)] == c || "0123456789ABCDEF"[HexDigit(c)] == c
  {
  }

  lemma HexDigitBack(d: nat, capital: bool)
    requires d < 16
    ensures var c := if capital then "0123456789ABCDEF"[d] else "0123456789abcdef"[d]; XDigit(c) && HexDigit(c) == d
  {
    HexDigitOf(d, capital);
  }

  lemma {:induction false} HexBack(n: nat, capital: bool)
    ensures XDigits(HexOf(n, capital)) && HexValue(HexOf(n, capital)) == n
  {
    hide HexDigit, HexValue, XDigit;
    HexDigitBack(n % 16, capital);
    HexWritten(n, capital);
    var f := if n < 16 then "" else HexOf(n / 16, capital);
    if n >= 16 {
      HexWritten(n / 16, capital);
      HexBack(n / 16, capital);
    }
    HexValueMore(f, if capital then "0123456789ABCDEF"[n % 16] else "0123456789abcdef"[n % 16]);
  }

  lemma HexValueMore(f: string, c: char)
    requires XDigits(f) && XDigit(c)
    ensures XDigits(f + [c]) && HexValue(f + [c]) == HexValue(f) * 16 + HexDigit(c) && HexValue("") == 0
  {
    assert (f + [c])[..|f|] == f;
  }

  /** A number written in hexadecimal, in small or in capital letters, is read back if it fits, and refused
  if it does not. */
  method HexRoundTrip(n: nat, capital: bool, w: nat) returns (r: Result)
    requires Size(w)
    ensures r == if n < w then Success(n) else NotOk
  {
    NumbersWritten(n, capital);
    HexBack(n, capital);
    var t := "0x" + HexOf(n, capital);
    assert t[2..] == HexOf(n, capital);
    r := GetHex(t, w);
  }

  /** A number that fits, written in decimal, is read back. */
  method DecRoundTrip(n: nat, w: nat) returns (r: Result)
    requires Size(w) && n < w
    ensures r == Success(n)
  {
    DecWritten(n);
    DecExact(DecOf(n), w);
    r := GetDec(DecOf(n), w);
  }

  /** A number within a word, written with its sign, is read back exactly if it lies in the range of signed
  words, and refused if not. */
  method IntRoundTrip(n: int, plus: bool, w: nat) returns (r: Result)
    requires Size(w) && -(w as int) < n < w
    ensures r == if -(w as int) <= 2 * n < w then Success(n) else NotOk
  {
    hide Value, DecOf;
    var m: nat := if n < 0 then -n else n;
    NumbersWritten(m, false);
    DecWritten(m);
    var t := (if n < 0 then "-" else if plus then "+" else "") + DecOf(m);
    Signs(DecOf(m));
    r := GetInt(t, w);
  }

  lemma Signs(s: string)
    requires s != "" && Digits(s)
    ensures Magnitude("-" + s) == s && Magnitude("+" + s) == s && Magnitude("" + s) == s
    ensures Denotes("-" + s) == -(Value(s) as int) && Denotes("+" + s) == Value(s) && Denotes("" + s) == Value(s)
  {
    assert ("-" + s)[1..] == s && ("+" + s)[1..] == s && "" + s == s;
    assert Digit(s[0]);
  }
}
