/** The token matchers of the command line (src/cli_parser/cparser_token.c).  A matcher says whether
a token may still become a word of its language, and whether it is one. */
module Tokens {
  datatype Verdict = Verdict(ok: bool, complete: bool)

  const FAIL := Verdict(false, false)

  predicate Digit(c: char) { '0' <= c <= '9' }

  predicate XDigit(c: char) { Digit(c) || 'a' <= c <= 'f' || 'A' <= c <= 'F' }

  predicate Digits(s: string) { forall i :: 0 <= i < |s| ==> Digit(s[i]) }

  predicate XDigits(s: string) { forall i :: 0 <= i < |s| ==> XDigit(s[i]) }

  /** The types of nodes in the parse tree, with their parameters. */
  datatype Kind = End | Keyword(word: string) | Text | Uint | Int | Hex | Mac | Ipv4 | Choice(words: seq<string>)

  // ---- the languages ---------------------------------------------------------------------

  predicate HexWord(w: string) {
    |w| > 2 && w[..2] == "0x" && XDigits(w[2..])
  }

  predicate UintWord(w: string) {
    (w != "" && Digits(w)) || HexWord(w)
  }

  predicate IntWord(w: string) {
    (w != "" && Digits(w)) || (|w| > 1 && (w[0] == '-' || w[0] == '+') && Digits(w[1..]))
  }

  /** The pieces fs of a string, when c is put behind it. */
  function Put(fs: seq<string>, sep: char, c: char): (gs: seq<string>)
    requires fs != []
    ensures gs != []
  {
    if c == sep then fs + [""] else fs[..|fs| - 1] + [fs[|fs| - 1] + [c]]
  }

  /** The pieces of w between separators. */
  function Split(w: string, sep: char): (fs: seq<string>)
    ensures fs != []
  {
    if w == "" then [""] else Put(Split(w[..|w| - 1], sep), sep, w[|w| - 1])
  }

  function Value(s: string): nat
    requires Digits(s)
  {
    if s == "" then 0 else Value(s[..|s| - 1]) * 10 + (s[|s| - 1] as int - '0' as int)
  }

  /** What may stand, perhaps unfinished, between the separators of an address. */
  predicate Part(k: Kind, f: string) {
    if k == Mac then |f| <= 2 && XDigits(f) else |f| <= 3 && Digits(f) && Value(f) <= 255
  }

  function Separator(k: Kind): char { if k == Mac then ':' else '.' }

  function Parts(k: Kind): nat { if k == Mac then 6 else 4 }

  predicate AddressWord(k: Kind, w: string) {
    var fs := Split(w, Separator(k));
    |fs| == Parts(k) && forall i :: 0 <= i < |fs| ==> Part(k, fs[i]) && fs[i] != ""
  }

  predicate Word(k: Kind, w: string) {
    match k
    case End => false
    case Keyword(word) => w == word
    case Text => w != ""
    case Uint => UintWord(w)
    case Int => IntWord(w)
    case Hex => HexWord(w)
    case Mac => AddressWord(k, w)
    case Ipv4 => AddressWord(k, w)
    case Choice(words) => w in words
  }

  /** Some word of the language begins with t. */
  ghost predicate Starts(k: Kind, t: string) {
    exists w :: Word(k, w) && t <= w
  }

  /** What each matcher should say of a token. A choice is complete when it is unique. */
  ghost function Judge(k: Kind, t: string): Verdict {
    if k.Choice? then Verdict(Matching(k.words, t) > 0, Matching(k.words, t) == 1)
    else Verdict(Starts(k, t), Word(k, t))
  }

  function Matching(words: seq<string>, t: string): nat {
    if words == [] then 0 else Matching(words[..|words| - 1], t) + (if t <= words[|words| - 1] then 1 else 0)
  }

  // ---- numbers ---------------------------------------------------------------------------

  lemma UintStarts(t: string)
    requires t != ""
    ensures Starts(Uint, t) <==> UintWord(t) || t == "0x"
  {
    if t == "0x" {
      assert Word(Uint, "0x0") && t <= "0x0";
    }
    if UintWord(t) {
      assert Word(Uint, t);
    }
    if w :| Word(Uint, w) && t <= w && HexWord(w) {
      assert t == w[..|t|];
      if |t| == 1 {
        assert t == ['0'] && Digits(t);
      } else if |t| > 2 {
        assert t[..2] == "0x" && t[2..] == w[2..][..|t| - 2];
      }
    }
  }

  lemma IntStarts(t: string)
    requires t != ""
    ensures Starts(Int, t) <==> IntWord(t) || t == "-" || t == "+"
  {
    if t == "-" || t == "+" {
      assert (t + "0")[1..] == "0";
      assert Word(Int, t + "0") && t <= t + "0";
    }
    if IntWord(t) {
      assert Word(Int, t);
    }
    if w :| Word(Int, w) && t <= w && !Digits(w) {
      assert t[1..] == w[1..][..|t| - 1];
    }
  }

  lemma HexStarts(t: string)
    requires t != ""
    ensures Starts(Hex, t) <==> HexWord(t) || t == "0" || t == "0x"
  {
    if t == "0" || t == "0x" {
      assert Word(Hex, "0x0") && t <= "0x0";
    }
    if HexWord(t) {
      assert Word(Hex, t);
    }
    if w :| Word(Hex, w) && t <= w {
      if |t| > 2 {
        assert t[..2] == "0x" && t[2..] == w[2..][..|t| - 2];
      }
    }
  }

  // ---- addresses -------------------------------------------------------------------------

  predicate Begun(k: Kind, fs: seq<string>) {
    |fs| <= Parts(k) && forall i :: 0 <= i < |fs| ==> Part(k, fs[i]) && (i < |fs| - 1 ==> fs[i] != "")
  }

  /** t may be the beginning of an address. */
  predicate AddressStart(k: Kind, t: string) {
    Begun(k, Split(t, Separator(k)))
  }

  lemma PartPrefix(k: Kind, f: string, c: char)
    requires Part(k, f + [c])
    ensures Part(k, f)
  {
    var g := f + [c];
    assert forall i :: 0 <= i < |f| ==> g[i] == f[i];
    if k != Mac {
      assert Digits(f);
      assert g[..|g| - 1] == f;
    }
  }

  lemma PutBegun(k: Kind, fs: seq<string>, c: char)
    requires fs != [] && Begun(k, Put(fs, Separator(k), c))
    ensures Begun(k, fs)
  {
    hide Part;
    var gs := Put(fs, Separator(k), c);
    if c != Separator(k) {
      assert Part(k, gs[|fs| - 1]);
      PartPrefix(k, fs[|fs| - 1], c);
    }
    forall i | 0 <= i < |fs| ensures Part(k, fs[i]) && (i < |fs| - 1 ==> fs[i] != "") {
      assert i < |fs| - 1 || c == Separator(k) ==> gs[i] == fs[i];
    }
  }

  lemma {:induction false} AddressPrefix(k: Kind, t: string, w: string)
    requires AddressStart(k, w) && t <= w
    ensures AddressStart(k, t)
    decreases |w|
  {
    if t != w {
      PutBegun(k, Split(w[..|w| - 1], Separator(k)), w[|w| - 1]);
      AddressPrefix(k, t, w[..|w| - 1]);
    }
  }

  lemma SplitMore(t: string, sep: char, c: char)
    ensures Split(t + [c], sep) == Put(Split(t, sep), sep, c)
  {
    assert (t + [c])[..|t|] == t;
  }

  lemma Fresh(k: Kind)
    ensures Part(k, "") && Part(k, "0")
  {
    assert "0"[..0] == "";
  }

  ghost function Missing(k: Kind, fs: seq<string>): int
    requires fs != []
  {
    2 * (Parts(k) - |fs|) + (if fs[|fs| - 1] == "" then 1 else 0)
  }

  lemma PutZero(k: Kind, fs: seq<string>)
    requires fs != [] && Begun(k, fs) && fs[|fs| - 1] == ""
    ensures Begun(k, Put(fs, Separator(k), '0')) && Missing(k, Put(fs, Separator(k), '0')) < Missing(k, fs)
  {
    hide Part;
    Fresh(k);
    assert "" + ['0'] == "0";
  }

  lemma PutSeparator(k: Kind, fs: seq<string>)
    requires fs != [] && Begun(k, fs) && fs[|fs| - 1] != "" && |fs| < Parts(k)
    ensures Begun(k, Put(fs, Separator(k), Separator(k))) && Missing(k, Put(fs, Separator(k), Separator(k))) < Missing(k, fs)
  {
    hide Part;
    Fresh(k);
  }

  /** Anything that may begin an address can be finished. */
  lemma {:induction false} AddressExtends(k: Kind, t: string) returns (w: string)
    requires AddressStart(k, t)
    ensures AddressWord(k, w) && t <= w
    decreases Missing(k, Split(t, Separator(k)))
  {
    hide Part, Split, Put;
    var fs := Split(t, Separator(k));
    if fs[|fs| - 1] == "" {
      SplitMore(t, Separator(k), '0');
      PutZero(k, fs);
      w := AddressExtends(k, t + ['0']);
    } else if |fs| < Parts(k) {
      SplitMore(t, Separator(k), Separator(k));
      PutSeparator(k, fs);
      w := AddressExtends(k, t + [Separator(k)]);
    } else {
      w := t;
    }
  }

  lemma AddressStarts(k: Kind, t: string)
    requires k == Mac || k == Ipv4
    ensures Starts(k, t) <==> AddressStart(k, t)
  {
    hide Part, Split;
    if AddressStart(k, t) {
      var w := AddressExtends(k, t);
      assert Word(k, w);
    }
    if w :| Word(k, w) && t <= w {
      AddressPrefix(k, t, w);
    }
  }

  // ---- the matchers ----------------------------------------------------------------------

  // cparser_match_keyword
  method MatchKeyword(t: string, word: string) returns (v: Verdict)
    requires t != ""
    ensures v == Judge(Keyword(word), t)
  {
    assert Word(Keyword(word), word);
    if |t| > |word| {
      return FAIL;
    }
    var n := 0;
    while n < |t| && t[n] == word[n]
      invariant 0 <= n <= |t| && t[..n] == word[..n]
    {
      n := n + 1;
    }
    if n == |t| {
      assert t[..n] == t;
      return Verdict(true, |t| == |word|);
    }
    assert t[n] != word[n];
    v := FAIL;
  }

  // cparser_match_uint
  method MatchUint(t: string) returns (v: Verdict)
    requires t != ""
    ensures v == Judge(Uint, t)
  {
    UintStarts(t);
    if !Digit(t[0]) {
      return FAIL;
    }
    if |t| == 1 {
      return Verdict(true, true);
    }
    var isDec := true;
    if t[1] == 'x' {
      if t[0] != '0' {
        return FAIL;
      }
      isDec := false;
      assert t[..2] == "0x";
    } else if !Digit(t[1]) {
      return FAIL;
    }
    if |t| == 2 {
      return Verdict(true, isDec);
    }
    for n := 2 to |t|
      invariant forall i :: 2 <= i < n ==> if isDec then Digit(t[i]) else XDigit(t[i])
    {
      if !(if isDec then Digit(t[n]) else XDigit(t[n])) {
        assert !isDec ==> t[2..][n - 2] == t[n];
        return FAIL;
      }
    }
    v := Verdict(true, true);
  }

  // cparser_match_int
  method MatchInt(t: string) returns (v: Verdict)
    requires t != ""
    ensures v == Judge(Int, t)
  {
    IntStarts(t);
    if !Digit(t[0]) && t[0] != '-' && t[0] != '+' {
      return FAIL;
    }
    if |t| == 1 {
      return Verdict(true, Digit(t[0]));
    }
    for n := 1 to |t|
      invariant forall i :: 1 <= i < n ==> Digit(t[i])
    {
      if !Digit(t[n]) {
        assert t[1..][n - 1] == t[n];
        return FAIL;
      }
    }
    v := Verdict(true, true);
  }

  // cparser_match_hex
  method MatchHex(t: string) returns (v: Verdict)
    requires t != ""
    ensures v == Judge(Hex, t)
  {
    HexStarts(t);
    if t[0] != '0' {
      return FAIL;
    }
    if |t| == 1 {
      return Verdict(true, false);
    }
    if t[1] != 'x' {
      return FAIL;
    }
    if |t| == 2 {
      return Verdict(true, false);
    }
    assert t[..2] == "0x";
    for n := 2 to |t|
      invariant forall i :: 2 <= i < n ==> XDigit(t[i])
    {
      if !XDigit(t[n]) {
        assert t[2..][n - 2] == t[n];
        return FAIL;
      }
    }
    v := Verdict(true, true);
  }

  /** What the counters of the address matchers stand for. */
  ghost predicate Scanned(k: Kind, t: string, digits: nat, seps: nat) {
    var fs := Split(t, Separator(k));
    Begun(k, fs) && seps == |fs| - 1 && digits == |fs[seps]|
  }

  /** A token is judged by what has been read of it. */
  lemma NotBegun(k: Kind, t: string, n: nat)
    requires (k == Mac || k == Ipv4) && n < |t| && !AddressStart(k, t[..n + 1])
    ensures Judge(k, t) == FAIL
  {
    hide Part, Split;
    if AddressStart(k, t) {
      AddressPrefix(k, t[..n + 1], t);
    }
    AddressStarts(k, t);
    assert Word(k, t) ==> Starts(k, t);
  }

  lemma OneMore(f: string, c: char)
    ensures XDigits(f + [c]) <==> XDigits(f) && XDigit(c)
    ensures Digits(f + [c]) <==> Digits(f) && Digit(c)
    ensures Digits(f) && Digit(c) ==> Value(f + [c]) == Value(f) * 10 + (c as int - '0' as int)
  {
    var g := f + [c];
    assert g[..|f|] == f && g[|f|] == c;
    assert forall i :: 0 <= i < |f| ==> g[i] == f[i];
  }

  lemma ScanStep(k: Kind, t: string, n: nat)
    requires n < |t|
    ensures Split(t[..n + 1], Separator(k)) == Put(Split(t[..n], Separator(k)), Separator(k), t[n])
  {
    assert t[..n + 1] == t[..n] + [t[n]];
    SplitMore(t[..n], Separator(k), t[n]);
  }

  lemma ScanNone(k: Kind)
    ensures Scanned(k, "", 0, 0)
  {
    Fresh(k);
  }

  lemma ScanEnd(k: Kind, t: string, digits: nat, seps: nat)
    requires (k == Mac || k == Ipv4) && Scanned(k, t, digits, seps)
    ensures Judge(k, t) == Verdict(true, seps == Parts(k) - 1 && digits > 0)
  {
    hide Part, Split;
    AddressStarts(k, t);
  }

  // cparser_match_macaddr
  method MatchMac(t: string) returns (v: Verdict)
    ensures v == Judge(Mac, t)
  {
    hide Scanned, AddressStart, Judge;
    ScanNone(Mac);
    assert t[..0] == "";
    var numDigit, numColon := 0, 0;
    for n := 0 to |t|
      invariant numDigit <= 2 && Scanned(Mac, t[..n], numDigit, numColon)
    {
      MacStep(t, n, numDigit, numColon);
      if numDigit == 0 {
        if !XDigit(t[n]) {
          NotBegun(Mac, t, n);
          return FAIL;
        }
        numDigit := 1;
      } else if numDigit == 1 {
        if !XDigit(t[n]) && t[n] != ':' {
          NotBegun(Mac, t, n);
          return FAIL;
        }
        numDigit := 2;
        if t[n] == ':' {
          numColon := numColon + 1;
          if numColon > 5 {
            NotBegun(Mac, t, n);
            return FAIL;
          }
          numDigit := 0;
        }
      } else {
        if t[n] != ':' {
          NotBegun(Mac, t, n);
          return FAIL;
        }
        numColon := numColon + 1;
        if numColon > 5 {
          NotBegun(Mac, t, n);
          return FAIL;
        }
        numDigit := 0;
      }
    }
    assert t[..|t|] == t;
    ScanEnd(Mac, t, numDigit, numColon);
    v := Verdict(true, numColon == 5 && numDigit > 0);
  }

  /** How one character carries the scan of a hardware address on. */
  lemma MacStep(t: string, n: nat, digits: nat, colons: nat)
    requires n < |t| && Scanned(Mac, t[..n], digits, colons)
    ensures t[n] == ':' && digits > 0 && colons < 5 ==> Scanned(Mac, t[..n + 1], 0, colons + 1)
    ensures XDigit(t[n]) && digits < 2 ==> Scanned(Mac, t[..n + 1], digits + 1, colons)
    ensures (if t[n] == ':' then digits == 0 || colons == 5 else !XDigit(t[n]) || digits == 2) ==> !AddressStart(Mac, t[..n + 1])
  {
    ScanStep(Mac, t, n);
    var fs := Split(t[..n], ':');
    var gs := Split(t[..n + 1], ':');
    var last := fs[colons];
    if t[n] != ':' {
      assert gs[colons] == last + [t[n]];
      OneMore(last, t[n]);
    }
  }

  // cparser_match_ipv4addr
  method MatchIpv4(t: string) returns (v: Verdict)
    ensures v == Judge(Ipv4, t)
  {
    hide Scanned, AddressStart, Judge, Beyond;
    ScanNone(Ipv4);
    assert t[..0] == "";
    var numDigit, numDot := 0, 0;
    for n := 0 to |t|
      invariant numDigit <= 3 && numDigit <= n && Scanned(Ipv4, t[..n], numDigit, numDot)
    {
      Ipv4Step(t, n, numDigit, numDot);
      if numDigit == 0 {
        if !Digit(t[n]) {
          NotBegun(Ipv4, t, n);
          return FAIL;
        }
        numDigit := numDigit + 1;
      } else if numDigit == 3 {
        if t[n] != '.' {
          NotBegun(Ipv4, t, n);
          return FAIL;
        }
        numDot := numDot + 1;
        if numDot > 3 {
          NotBegun(Ipv4, t, n);
          return FAIL;
        }
        numDigit := 0;
      } else {
        if !Digit(t[n]) && t[n] != '.' {
          NotBegun(Ipv4, t, n);
          return FAIL;
        }
        numDigit := numDigit + 1;
        if t[n] == '.' {
          numDot := numDot + 1;
          if numDot > 3 {
            NotBegun(Ipv4, t, n);
            return FAIL;
          }
          numDigit := 0;
        } else if numDigit == 3 {
          if Beyond(t[n - 2], t[n - 1], t[n]) {
            NotBegun(Ipv4, t, n);
            return FAIL;
          }
        }
      }
    }
    assert t[..|t|] == t;
    ScanEnd(Ipv4, t, numDigit, numDot);
    v := Verdict(true, numDot == 3 && numDigit > 0);
  }

  /** strncmp(a, "255", 3) > 0 for the three characters of a */
  predicate Beyond(x: char, y: char, z: char) {
    x > '2' || (x == '2' && (y > '5' || (y == '5' && z > '5')))
  }

  lemma ThreeDigits(f: string)
    requires |f| == 3 && Digits(f)
    ensures Value(f) > 255 <==> Beyond(f[0], f[1], f[2])
  {
    var g, h := f[..2], f[..1];
    assert g[..1] == h && h[..0] == "";
    var a, b, c := f[0] as int - '0' as int, f[1] as int - '0' as int, f[2] as int - '0' as int;
    assert Value(h) == a && Value(g) == Value(h) * 10 + b && Value(f) == Value(g) * 10 + c;
  }

  lemma TwoDigits(f: string)
    requires |f| <= 2 && Digits(f)
    ensures Value(f) <= 99
  {
    if |f| == 2 {
      var h := f[..1];
      assert h[..0] == "";
    } else if |f| == 1 {
      assert f[..0] == "";
    }
  }

  /** The last field of what has been read is its last characters. */
  lemma {:induction false} LastField(t: string, sep: char)
    ensures var fs := Split(t, sep); var last := fs[|fs| - 1]; |last| <= |t| && last == t[|t| - |last|..]
  {
    if t != "" {
      LastField(t[..|t| - 1], sep);
    }
  }

  lemma Ipv4Step(t: string, n: nat, digits: nat, dots: nat)
    requires n < |t| && Scanned(Ipv4, t[..n], digits, dots) && digits <= n
    ensures t[n] == '.' && digits > 0 && dots < 3 ==> Scanned(Ipv4, t[..n + 1], 0, dots + 1)
    ensures t[n] == '.' && (digits == 0 || dots == 3) ==> !AddressStart(Ipv4, t[..n + 1])
    ensures Digit(t[n]) && (digits < 2 || (digits == 2 && !Beyond(t[n - 2], t[n - 1], t[n]))) ==> Scanned(Ipv4, t[..n + 1], digits + 1, dots)
    ensures t[n] != '.' && (!Digit(t[n]) || digits == 3 || (digits == 2 && Beyond(t[n - 2], t[n - 1], t[n]))) ==> !AddressStart(Ipv4, t[..n + 1])
  {
    hide Part, Split, Put, Beyond, Begun;
    ScanStep(Ipv4, t, n);
    var fs := Split(t[..n], '.');
    if t[n] == '.' {
      Fresh(Ipv4);
      Ipv4Dot(fs);
    } else {
      var f := fs[|fs| - 1];
      LastField(t[..n], '.');
      assert |f| == 2 ==> f[0] == t[n - 2] && f[1] == t[n - 1];
      Shorter(fs);
      Ipv4Digit(fs, t[n]);
    }
  }

  lemma Shorter(fs: seq<string>)
    requires fs != [] && Begun(Ipv4, fs)
    ensures |fs[|fs| - 1]| <= 3
  {
  }

  lemma Ipv4Dot(fs: seq<string>)
    requires fs != [] && Begun(Ipv4, fs) && Part(Ipv4, "")
    ensures Begun(Ipv4, Put(fs, '.', '.')) <==> fs[|fs| - 1] != "" && |fs| < 4
    ensures Put(fs, '.', '.') == fs + [""]
  {
    hide Part;
    var gs := Put(fs, '.', '.');
    assert gs[|fs| - 1] == fs[|fs| - 1];
  }

  lemma Ipv4Digit(fs: seq<string>, c: char)
    requires fs != [] && Begun(Ipv4, fs) && c != '.'
    ensures var f := fs[|fs| - 1]; var gs := Put(fs, '.', c);
      && |gs| == |fs| && gs[|fs| - 1] == f + [c]
      && (Begun(Ipv4, gs) <==> Digit(c) && (|f| < 2 || (|f| == 2 && !Beyond(f[0], f[1], c))))
  {
    var f := fs[|fs| - 1];
    var gs := Put(fs, '.', c);
    PartMore(f, c);
    Ipv4Put(fs, c);
  }

  lemma Ipv4Put(fs: seq<string>, c: char)
    requires fs != [] && Begun(Ipv4, fs) && c != '.'
    ensures Begun(Ipv4, Put(fs, '.', c)) <==> Part(Ipv4, fs[|fs| - 1] + [c])
  {
    hide Part;
    var gs := Put(fs, '.', c);
    assert gs[|fs| - 1] == fs[|fs| - 1] + [c];
  }

  lemma PartMore(f: string, c: char)
    requires Part(Ipv4, f)
    ensures Part(Ipv4, f + [c]) <==> Digit(c) && (|f| < 2 || (|f| == 2 && !Beyond(f[0], f[1], c)))
  {
    OneMore(f, c);
    if Digit(c) {
      if |f| < 2 {
        TwoDigits(f + [c]);
      } else if |f| == 2 {
        ThreeDigits(f + [c]);
      }
    }
  }

  /** Some word of the list begins with t. */
  ghost predicate Begins(words: seq<string>, t: string) {
    exists i :: 0 <= i < |words| && t <= words[i]
  }

  lemma {:induction false} MatchingStarts(words: seq<string>, t: string)
    ensures Matching(words, t) > 0 <==> Begins(words, t)
  {
    if words != [] {
      var n := |words| - 1;
      MatchingStarts(words[..n], t);
      if Begins(words[..n], t) {
        var i :| 0 <= i < n && t <= words[..n][i];
        assert t <= words[i];
      }
      if i :| 0 <= i < |words| && t <= words[i] && i < n {
        assert t <= words[..n][i];
      }
    }
  }

  /** A token is accepted exactly if some word of the language begins with it, and a finished token
  is accepted. */
  lemma JudgeStarts(k: Kind, t: string)
    ensures Judge(k, t).ok <==> Starts(k, t)
    ensures Judge(k, t).complete ==> Judge(k, t).ok
  {
    if k.Choice? {
      MatchingStarts(k.words, t);
      if i :| 0 <= i < |k.words| && t <= k.words[i] {
        assert Word(k, k.words[i]);
      }
      if w :| Word(k, w) && t <= w {
        var i :| 0 <= i < |k.words| && k.words[i] == w;
        assert t <= k.words[i];
      }
    } else if Word(k, t) {
      assert t <= t;
    }
  }

  // cparser_match_list
  method MatchChoice(t: string, words: seq<string>) returns (v: Verdict)
    ensures v == Judge(Choice(words), t)
  {
    var matches := 0;
    for n := 0 to |words|
      invariant matches == Matching(words[..n], t)
    {
      assert words[..n + 1][..n] == words[..n];
      if t <= words[n] {
        matches := matches + 1;
      }
    }
    assert words[..|words|] == words;
    v := Verdict(matches > 0, matches == 1);
  }

  /** The table of match functions. */
  method MatchToken(k: Kind, t: string) returns (v: Verdict)
    requires t != ""
    ensures v == Judge(k, t)
  {
    match k
    case End =>
      v := FAIL;
    case Keyword(word) =>
      v := MatchKeyword(t, word);
    case Text =>
      assert Word(Text, t);
      v := Verdict(true, true);
    case Uint =>
      v := MatchUint(t);
    case Int =>
      v := MatchInt(t);
    case Hex =>
      v := MatchHex(t);
    case Mac =>
      v := MatchMac(t);
    case Ipv4 =>
      v := MatchIpv4(t);
    case Choice(words) =>
      v := MatchChoice(t, words);
  }

  // ---- words written -----------------------------------------------------------------------

  lemma PutPlus(fs: seq<string>, gs: seq<string>, sep: char, c: char)
    requires gs != []
    ensures Put(fs + gs, sep, c) == fs + Put(gs, sep, c)
  {
    var n := |gs| - 1;
    assert (fs + gs)[..|fs + gs| - 1] == fs + gs[..n];
    assert (fs + gs)[|fs + gs| - 1] == gs[n];
  }

  lemma {:induction false} SplitPlus(a: string, b: string, sep: char)
    ensures Split(a + [sep] + b, sep) == Split(a, sep) + Split(b, sep)
  {
    hide Put, Split;
    if b == "" {
      assert a + [sep] + b == a + [sep];
      SplitMore(a, sep, sep);
      SplitEnds(a, sep);
    } else {
      var n := |b| - 1;
      SplitPlus(a, b[..n], sep);
      SplitMore(a + [sep] + b[..n], sep, b[n]);
      SplitMore(b[..n], sep, b[n]);
      assert a + [sep] + b == a + [sep] + b[..n] + [b[n]] && b == b[..n] + [b[n]];
      PutPlus(Split(a, sep), Split(b[..n], sep), sep, b[n]);
    }
  }

  lemma SplitEnds(a: string, sep: char)
    ensures Put(Split(a, sep), sep, sep) == Split(a, sep) + Split("", sep)
  {
  }

  lemma {:induction false} SplitOne(w: string, sep: char)
    requires sep !in w
    ensures Split(w, sep) == [w]
  {
    if w != "" {
      var n := |w| - 1;
      SplitOne(w[..n], sep);
      assert w[n] in w;
      assert w == w[..n] + [w[n]];
    }
  }

  /** n in decimal. */
  function DecOf(n: nat): string {
    (if n < 10 then "" else DecOf(n / 10)) + ["0123456789"[n % 10]]
  }

  /** n in hexadecimal, in small or in capital letters. */
  function HexOf(n: nat, capital: bool): string {
    (if n < 16 then "" else HexOf(n / 16, capital)) + [if capital then "0123456789ABCDEF"[n % 16] else "0123456789abcdef"[n % 16]]
  }

  lemma DecDigit(d: nat)
    requires d < 10
    ensures Digit("0123456789"[d]) && "0123456789"[d] as int == '0' as int + d
  {
  }

  lemma HexDigitOf(d: nat, capital: bool)
    requires d < 16
    ensures XDigit(if capital then "0123456789ABCDEF"[d] else "0123456789abcdef"[d])
  {
  }

  lemma {:induction false} DecWritten(n: nat)
    ensures DecOf(n) != "" && Digits(DecOf(n)) && Value(DecOf(n)) == n
    ensures n < 1000 ==> |DecOf(n)| <= 3
  {
    DecDigit(n % 10);
    var c, f := "0123456789"[n % 10], if n < 10 then "" else DecOf(n / 10);
    if n >= 10 {
      DecWritten(n / 10);
      if n < 1000 {
        assert n / 10 < 100 && (n / 10 < 10 || n / 10 / 10 < 10);
      }
    }
    OneMore(f, c);
  }

  lemma {:induction false} HexWritten(n: nat, capital: bool)
    ensures HexOf(n, capital) != "" && XDigits(HexOf(n, capital))
    ensures n < 16 <==> |HexOf(n, capital)| == 1
    ensures n < 256 <==> |HexOf(n, capital)| <= 2
  {
    HexDigitOf(n % 16, capital);
    if n >= 16 {
      HexWritten(n / 16, capital);
    }
  }

  /** Numbers as they are written are words of the numeric kinds. */
  lemma NumbersWritten(n: nat, capital: bool)
    ensures Word(Uint, DecOf(n)) && Word(Int, DecOf(n)) && Word(Int, "-" + DecOf(n)) && Word(Int, "+" + DecOf(n))
    ensures Word(Hex, "0x" + HexOf(n, capital)) && Word(Uint, "0x" + HexOf(n, capital))
  {
    DecWritten(n);
    HexWritten(n, capital);
    assert ("-" + DecOf(n))[1..] == DecOf(n) && ("+" + DecOf(n))[1..] == DecOf(n);
    assert ("0x" + HexOf(n, capital))[..2] == "0x" && ("0x" + HexOf(n, capital))[2..] == HexOf(n, capital);
  }

  lemma FieldOf(s: string)
    requires XDigits(s)
    ensures '.' !in s && ':' !in s
  {
  }

  function Dotted(a: string, b: string, c: string, d: string): string {
    a + "." + b + "." + c + "." + d
  }

  lemma DottedFields(a: string, b: string, c: string, d: string)
    requires '.' !in a && '.' !in b && '.' !in c && '.' !in d
    ensures Split(Dotted(a, b, c, d), '.') == [a, b, c, d]
  {
    hide Split;
    SplitPlus(a + "." + b + "." + c, d, '.');
    SplitPlus(a + "." + b, c, '.');
    SplitPlus(a, b, '.');
    SplitOne(a, '.');
    SplitOne(b, '.');
    SplitOne(c, '.');
    SplitOne(d, '.');
  }

  /** Four numbers with dots between them are an address exactly if none is above 255. */
  lemma AddressWritten(a: nat, b: nat, c: nat, d: nat)
    ensures Word(Ipv4, Dotted(DecOf(a), DecOf(b), DecOf(c), DecOf(d))) <==> a <= 255 && b <= 255 && c <= 255 && d <= 255
  {
    hide Split, Part, DecOf, Dotted;
    OctetWritten(a);
    OctetWritten(b);
    OctetWritten(c);
    OctetWritten(d);
    DottedAddress(DecOf(a), DecOf(b), DecOf(c), DecOf(d));
  }

  lemma DottedAddress(a: string, b: string, c: string, d: string)
    requires a != "" && b != "" && c != "" && d != ""
    requires '.' !in a && '.' !in b && '.' !in c && '.' !in d
    ensures Word(Ipv4, Dotted(a, b, c, d)) <==> Part(Ipv4, a) && Part(Ipv4, b) && Part(Ipv4, c) && Part(Ipv4, d)
  {
    hide Split, Part, Dotted;
    DottedFields(a, b, c, d);
    var fs := [a, b, c, d];
    assert fs[0] == a && fs[1] == b && fs[2] == c && fs[3] == d;
  }

  lemma OctetWritten(n: nat)
    ensures Part(Ipv4, DecOf(n)) <==> n <= 255
    ensures DecOf(n) != "" && '.' !in DecOf(n)
  {
    DecWritten(n);
    FieldOf(DecOf(n));
  }

  /** Six numbers in hexadecimal with colons between them are a hardware address exactly if all are
  bytes. */
  lemma HardwareWritten(ns: seq<nat>, capital: bool)
    requires |ns| == 6
    ensures Word(Mac, HexOf(ns[0], capital) + ":" + HexOf(ns[1], capital) + ":" + HexOf(ns[2], capital) + ":" +
                      HexOf(ns[3], capital) + ":" + HexOf(ns[4], capital) + ":" + HexOf(ns[5], capital))
            <==> forall i :: 0 <= i < 6 ==> ns[i] < 256
  {
    hide Split, Part, HexOf;
    var fs := seq(6, i requires 0 <= i < 6 => HexOf(ns[i], capital));
    forall i | 0 <= i < 6 ensures (Part(Mac, fs[i]) <==> ns[i] < 256) && fs[i] != "" && ':' !in fs[i] {
      GroupWritten(ns[i], capital);
    }
    SixGroups(fs);
  }

  lemma GroupWritten(n: nat, capital: bool)
    ensures Part(Mac, HexOf(n, capital)) <==> n < 256
    ensures HexOf(n, capital) != "" && ':' !in HexOf(n, capital)
  {
    HexWritten(n, capital);
    FieldOf(HexOf(n, capital));
  }

  lemma SixGroups(fs: seq<string>)
    requires |fs| == 6 && forall i :: 0 <= i < 6 ==> fs[i] != "" && ':' !in fs[i]
    ensures Word(Mac, fs[0] + ":" + fs[1] + ":" + fs[2] + ":" + fs[3] + ":" + fs[4] + ":" + fs[5])
            <==> forall i :: 0 <= i < 6 ==> Part(Mac, fs[i])
  {
    hide Split, Part;
    forall i | 0 <= i < 6 ensures Split(fs[i], ':') == [fs[i]] {
      SplitOne(fs[i], ':');
    }
    var w := fs[0] + ":" + fs[1];
    SplitPlus(fs[0], fs[1], ':');
    var x := w + ":" + fs[2];
    SplitPlus(w, fs[2], ':');
    var y := x + ":" + fs[3];
    SplitPlus(x, fs[3], ':');
    var z := y + ":" + fs[4];
    SplitPlus(y, fs[4], ':');
    SplitPlus(z, fs[5], ':');
    assert Split(z + ":" + fs[5], ':') == fs;
  }

  lemma {:induction false} SplitCount(w: string, sep: char)
    ensures |Split(w, sep)| == multiset(w)[sep] + 1
  {
    if w != "" {
      var n := |w| - 1;
      SplitCount(w[..n], sep);
      assert w == w[..n] + [w[n]];
    }
  }

  /** Addresses have three dots, hardware addresses five colons. */
  lemma SeparatorsNeeded(w: string)
    ensures Word(Ipv4, w) ==> multiset(w)['.'] == 3
    ensures Word(Mac, w) ==> multiset(w)[':'] == 5
  {
    SplitCount(w, '.');
    SplitCount(w, ':');
  }

  /** A choice is complete for t exactly if just one of its words begins with t. */
  lemma {:induction false} MatchingOne(words: seq<string>, t: string, i: nat)
    requires i < |words| && t <= words[i]
    ensures Matching(words, t) == 1 <==> forall j :: 0 <= j < |words| && t <= words[j] ==> j == i
  {
    var n := |words| - 1;
    MatchingStarts(words[..n], t);
    if i < n {
      MatchingOne(words[..n], t, i);
    }
    assert Begins(words[..n], t) <==> exists j :: 0 <= j < n && t <= words[j] by {
      if Begins(words[..n], t) {
        var j :| 0 <= j < n && t <= words[..n][j];
        assert t <= words[j];
      }
      if j :| 0 <= j < n && t <= words[j] {
        assert t <= words[..n][j];
      }
    }
  }
}
