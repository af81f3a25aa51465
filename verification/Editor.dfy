/** The line editor of the command line (src/cli_parser/cparser.c, cparser_line.c).  It keeps the
parser's state machine, which only ever sees single characters, in step with the text to the left of
the cursor, through insertion, erasure, cursor movement and recall of earlier lines. */
module Editor {
  import opened ParserFsm

  const MAX_LINES := 10

  /** A line and where its cursor stands. */
  datatype Text = Text(chars: string, cursor: nat)

  predicate Fine(x: Text) {
    x.cursor <= |x.chars| <= MAX_LINE && forall i :: 0 <= i < |x.chars| ==> !Erases(x.chars[i])
  }

  const NUL := 0 as char

  /** Whether a line takes ch in. */
  predicate Takes(x: Text, ch: char) {
    ch != NUL && |x.chars| < MAX_LINE
  }

  function Inserted(x: Text, ch: char): Text
    requires x.cursor <= |x.chars|
  {
    if !Takes(x, ch) then x
    else Text(x.chars[..x.cursor] + [ch] + x.chars[x.cursor..], x.cursor + 1)
  }

  function Deleted(x: Text): Text
    requires x.cursor <= |x.chars|
  {
    if x.cursor == 0 then x else Text(x.chars[..x.cursor - 1] + x.chars[x.cursor..], x.cursor - 1)
  }

  /** cparser_line_t */
  class Line {
    const buf: array<char>
    var last: nat
    var current: nat

    constructor ()
      ensures Valid() && Value() == Text("", 0) && fresh(buf)
    {
      buf := new char[MAX_LINE + 1](_ => 0 as char);
      last, current := 0, 0;
    }

    ghost predicate Valid()
      reads this
    {
      buf.Length == MAX_LINE + 1 && current <= last <= MAX_LINE
    }

    ghost function Value(): Text
      reads this, buf
      requires Valid()
    {
      Text(buf[..last], current)
    }

    // cparser_line_reset
    method Clear()
      requires Valid()
      modifies this, buf
      ensures Valid() && Value() == Text("", 0)
    {
      last, current := 0, 0;
      for n := 0 to buf.Length
        invariant last == current == 0
      {
        buf[n] := 0 as char;
      }
    }

    /** Moves all characters from the cursor to the end back by one. */
    method MakeRoom()
      requires Valid() && last < MAX_LINE
      modifies buf
      ensures forall i :: 0 <= i < current ==> buf[i] == old(buf[i])
      ensures forall i :: current <= i < last ==> buf[i + 1] == old(buf[i])
    {
      var n := last;
      while n > current
        invariant current <= n <= last
        invariant forall i :: 0 <= i < n ==> buf[i] == old(buf[i])
        invariant forall i :: n <= i < last ==> buf[i + 1] == old(buf[i])
      {
        buf[n] := buf[n - 1];
        n := n - 1;
      }
    }

    // cparser_line_insert
    method Insert(ch: char) returns (ok: bool)
      requires Valid()
      modifies this, buf
      ensures Valid() && ok == Takes(old(Value()), ch)
      ensures Value() == Inserted(old(Value()), ch)
    {
      if ch == NUL {
        return false;
      }
      if MAX_LINE <= last {
        return false;
      }
      MakeRoom();
      last := last + 1;
      buf[last] := 0 as char;
      buf[current] := ch;
      current := current + 1;
      assert buf[..last] == Inserted(old(Value()), ch).chars;
      ok := true;
    }

    // cparser_line_delete
    method Delete() returns (ok: bool)
      requires Valid()
      modifies this, buf
      ensures Valid() && ok == (old(current) > 0)
      ensures Value() == Deleted(old(Value()))
    {
      if last == 0 || current == 0 {
        return false;
      }
      var n := current;
      while n < last
        invariant current <= n <= last == old(last) && current == old(current)
        invariant forall i :: 0 <= i < current - 1 ==> buf[i] == old(buf[i])
        invariant forall i :: current <= i < n ==> buf[i - 1] == old(buf[i])
        invariant forall i :: n <= i < last ==> buf[i] == old(buf[i])
      {
        buf[n - 1] := buf[n];
        n := n + 1;
      }
      current := current - 1;
      last := last - 1;
      buf[last] := 0 as char;
      assert buf[..last] == Deleted(old(Value())).chars;
      ok := true;
    }

    // cparser_line_next_char: nothing at the end of the line
    method NextChar() returns (ch: string)
      requires Valid()
      modifies this`current
      ensures Valid() && last == old(last)
      ensures if old(current) == last then ch == "" && current == last else ch == [buf[old(current)]] && current == old(current) + 1
    {
      if last == current {
        return "";
      }
      ch := [buf[current]];
      current := current + 1;
    }

    // cparser_line_prev_char
    method PrevChar() returns (ch: string)
      requires Valid()
      modifies this`current
      ensures Valid() && last == old(last)
      ensures if old(current) == 0 then ch == "" && current == 0 else ch == [BACKSPACE] && current == old(current) - 1
    {
      if current == 0 {
        return "";
      }
      current := current - 1;
      ch := [BACKSPACE];
    }
  }

  // ---- keys ------------------------------------------------------------------------------

  /** What a key press amounts to.  Enter also types what completion adds and takes over the root
  of the mode that the command has entered. */
  datatype Key = Insert(ch: char) | Rubout | Left | Right | First | Last | Up | Down | Enter(typed: string, root: Node)

  /** All lines, the current one, and the highest one used. */
  datatype Doc = Doc(lines: seq<Text>, cur: nat, max: nat)
  {
    ghost predicate Ok() {
      |lines| == MAX_LINES && cur <= max < MAX_LINES && forall i :: 0 <= i < MAX_LINES ==> Fine(lines[i])
    }

    function Line(): Text
      requires cur < |lines|
    {
      lines[cur]
    }

    /** The text left of the cursor. */
    function Left(): string
      requires cur < |lines| && Line().cursor <= |Line().chars|
    {
      Line().chars[..Line().cursor]
    }

    function SetLine(x: Text): Doc
      requires cur < |lines|
    {
      this.(lines := lines[cur := x])
    }
  }

  function InsertedAll(x: Text, typed: string): (y: Text)
    requires x.cursor <= |x.chars|
    ensures y.cursor <= |y.chars|
  {
    if typed == "" then x else Inserted(InsertedAll(x, typed[..|typed| - 1]), typed[|typed| - 1])
  }

  function NextLine(d: Doc): nat {
    if d.cur + 1 >= MAX_LINES then 0 else d.cur + 1
  }

  /** The next line becomes the current one, and empty. */
  function Advanced(d: Doc): Doc
    requires |d.lines| == MAX_LINES
  {
    var next := NextLine(d);
    Doc(d.lines[next := Text("", 0)], next, if d.max < next then next else d.max)
  }

  /** What a key does to the text. */
  ghost function Edited(d: Doc, k: Key): Doc
    requires d.Ok()
  {
    var x := d.Line();
    match k
    case Insert(ch) => d.SetLine(Inserted(x, ch))
    case Rubout => d.SetLine(Deleted(x))
    case Left => d.SetLine(x.(cursor := if x.cursor == 0 then 0 else x.cursor - 1))
    case Right => d.SetLine(x.(cursor := if x.cursor == |x.chars| then x.cursor else x.cursor + 1))
    case First => d.SetLine(x.(cursor := 0))
    case Last => d.SetLine(x.(cursor := |x.chars|))
    case Up => d.(cur := if d.cur == 0 then d.max else d.cur - 1)
    case Down => d.(cur := if d.cur + 1 > d.max then 0 else d.cur + 1)
    case Enter(typed, _) => Advanced(d.SetLine(InsertedAll(x, typed)))
  }

  // ---- what keys do, told from each other and from the text ----------------------------------

  /** The text right of the cursor. */
  function Rest(x: Text): string
    requires x.cursor <= |x.chars|
  {
    x.chars[x.cursor..]
  }

  /** All lines but the current one, and which one that is, stay. */
  ghost predicate OnlyLine(d: Doc, e: Doc) {
    && |e.lines| == |d.lines| && e.cur == d.cur && e.max == d.max
    && (forall i :: 0 <= i < |d.lines| && i != d.cur ==> e.lines[i] == d.lines[i])
  }

  /** An insertion puts its character left of the cursor, an erasure takes one away there, and what is
  right of the cursor stays; the arrows and the jumps move the cursor over the text. */
  lemma KeysOnText(d: Doc, ch: char)
    requires d.Ok()
    ensures var e := Edited(d, Insert(ch));
      && OnlyLine(d, e) && e.Line().cursor <= |e.Line().chars| && Rest(e.Line()) == Rest(d.Line())
      && e.Left() == if ch as int != 0 && |d.Line().chars| < 383 then d.Left() + [ch] else d.Left()
    ensures var e := Edited(d, Rubout);
      && OnlyLine(d, e) && e.Line().cursor <= |e.Line().chars| && Rest(e.Line()) == Rest(d.Line())
      && if d.Left() == "" then e.Left() == "" else e.Left() == d.Left()[..|d.Left()| - 1]
    ensures var e := Edited(d, Left); OnlyLine(d, e) && e.Line() == Text(d.Line().chars, if d.Line().cursor > 0 then d.Line().cursor - 1 else 0)
    ensures var e := Edited(d, Right);
      && OnlyLine(d, e) && e.Line().chars == d.Line().chars
      && e.Line().cursor == if Rest(d.Line()) == "" then d.Line().cursor else d.Line().cursor + 1
    ensures var e := Edited(d, First); OnlyLine(d, e) && e.Left() == "" && Rest(e.Line()) == d.Line().chars
    ensures var e := Edited(d, Last); OnlyLine(d, e) && e.Left() == d.Line().chars && Rest(e.Line()) == ""
  {
    var x := Inserted(d.Line(), ch);
    assert x.chars[x.cursor..] == Rest(d.Line());
    var y := Deleted(d.Line());
    assert y.chars[y.cursor..] == Rest(d.Line());
    assert d.Line().chars[0..] == d.Line().chars;
  }

  /** An erasure takes an insertion back. */
  lemma RuboutInsert(d: Doc, ch: char)
    requires d.Ok() && ch as int != 0 && |d.Line().chars| < 383
    ensures var e := Edited(d, Insert(ch)); e.cur < |e.lines| && e.Line().cursor <= |e.Line().chars| && e.SetLine(Deleted(e.Line())) == d
  {
    var x := d.Line();
    var y := Inserted(x, ch);
    assert y.chars[..y.cursor - 1] + y.chars[y.cursor..] == x.chars;
    assert d.lines[d.cur := x] == d.lines;
  }

  lemma {:induction false} AllInsertedText(x: Text, typed: string)
    requires x.cursor <= |x.chars| && |x.chars| + |typed| <= MAX_LINE && NUL !in typed
    ensures var y := InsertedAll(x, typed); y.cursor == x.cursor + |typed| && y.chars == x.chars[..x.cursor] + typed + Rest(x)
  {
    if typed == "" {
      assert x.chars == x.chars[..x.cursor] + "" + Rest(x);
    } else {
      var n := |typed| - 1;
      AllInsertedText(x, typed[..n]);
      assert typed == typed[..n] + [typed[n]];
    }
  }

  /** Enter leaves the line, with what completion types put in at the cursor, and goes on to the next
  one, which becomes empty; no third line changes. */
  lemma EnterLeaves(d: Doc, typed: string, root: Node)
    requires d.Ok() && |d.Line().chars| + |typed| <= 383 && NUL !in typed
    ensures var e := Edited(d, Enter(typed, root));
      && |e.lines| == 10 && e.cur == (d.cur + 1) % 10 && e.Line() == Text("", 0)
      && e.lines[d.cur] == Text(d.Left() + typed + Rest(d.Line()), |d.Left()| + |typed|)
      && (forall i :: 0 <= i < 10 && i != d.cur && i != e.cur ==> e.lines[i] == d.lines[i])
      && e.max == if d.max < e.cur then e.cur else d.max
  {
    AllInsertedText(d.Line(), typed);
  }

  /** Up after Enter recalls the line just entered, its cursor included. */
  lemma EnterThenUp(d: Doc, typed: string, root: Node)
    requires d.Ok() && |d.Line().chars| + |typed| <= 383 && Plain(typed)
    ensures var e := Edited(d, Enter(typed, root));
      && e.Ok()
      && Edited(e, Up).cur == d.cur
      && Edited(e, Up).Line() == Text(d.Left() + typed + Rest(d.Line()), |d.Left()| + |typed|)
  {
    hide InsertedAll;
    EnterLeaves(d, typed, root);
    AllInserted(d.Line(), typed);
  }

  /** Up and Down take each other back. */
  lemma UpDown(d: Doc)
    requires d.Ok()
    ensures Edited(d, Up).Ok() && Edited(Edited(d, Up), Down) == d
    ensures Edited(d, Down).Ok() && Edited(Edited(d, Down), Up) == d
  {
  }

  /** n times Up. */
  ghost function Ups(d: Doc, n: nat): (e: Doc)
    requires d.Ok()
    ensures e.Ok() && e.(cur := d.cur) == d
  {
    if n == 0 then d else Edited(Ups(d, n - 1), Up)
  }

  /** Up goes back line by line, from the current one to the first, then from the highest one used: after
  as many times as there are lines in use it is back, having visited each of them once. */
  lemma {:induction false} UpsVisit(d: Doc, n: nat)
    requires d.Ok() && n <= d.max + 1
    ensures Ups(d, n).cur == if n <= d.cur then d.cur - n else d.cur + d.max + 1 - n
  {
    if n > 0 {
      UpsVisit(d, n - 1);
    }
  }

  lemma UpsAll(d: Doc, i: nat) returns (n: nat)
    requires d.Ok() && i <= d.max
    ensures n <= d.max && Ups(d, n).cur == i && (forall m: nat :: m <= d.max && m != n ==> Ups(d, m).cur != i) && Ups(d, d.max + 1) == d
  {
    n := if i <= d.cur then d.cur - i else d.cur + d.max + 1 - i;
    forall m: nat | m <= d.max + 1 ensures Ups(d, m).cur == if m <= d.cur then d.cur - m else d.cur + d.max + 1 - m {
      UpsVisit(d, m);
    }
  }

  function RootAfter(root: Node, k: Key): Node {
    if k.Enter? then k.root else root
  }

  // ---- the machine in step with the text -------------------------------------------------

  /** f is what a reset and typing w would give, but for what popped tokens matched. */
  ghost predicate InStep(pv: bool, root: Node, f: Fsm, w: string) {
    Height(root) < MAX_TOKENS && Good(f) && Same(f, Replay(pv, root, w))
  }

  lemma Restarted(pv: bool, root: Node)
    requires Height(root) < MAX_TOKENS
    ensures InStep(pv, root, Reset(root), "")
  {
  }

  lemma TypeInStep(pv: bool, root: Node, f: Fsm, w: string, ch: char)
    requires InStep(pv, root, f, w)
    ensures Good(Type(f, pv, ch)) && InStep(pv, root, Type(f, pv, ch), w + [ch])
  {
    hide Type, Good, Same;
    TypeGood(f, pv, ch);
    TypeSame(f, Replay(pv, root, w), pv, ch);
    assert (w + [ch])[..|w|] == w;
  }

  lemma SameTrans(f: Fsm, g: Fsm, h: Fsm)
    requires Same(f, g) && Same(g, h)
    ensures Same(f, h)
  {
  }

  lemma EraseInStep(pv: bool, root: Node, f: Fsm, w: string)
    requires InStep(pv, root, f, w) && 0 < |w| < MAX_LINE
    ensures Good(Erase(f)) && InStep(pv, root, Erase(f), w[..|w| - 1])
  {
    hide Type, Good, Same, Erase;
    var v := w[..|w| - 1];
    var g := Replay(pv, root, v);
    EraseGood(f);
    ReplayTyped(pv, root, v);
    EraseSame(f, Replay(pv, root, w));
    EraseUndoes(g, pv, w[|w| - 1]);
    SameTrans(Erase(f), Erase(Replay(pv, root, w)), g);
  }

  lemma InStepFacts(pv: bool, root: Node, f: Fsm, w: string)
    requires InStep(pv, root, f, w)
    ensures f.pos == if |w| < MAX_LINE then |w| else MAX_LINE - 1
    ensures f.state == InToken ==> f.Top().text != ""
  {
    ReplayTyped(pv, root, w);
  }

  /** What one key that changes or passes one character feeds to the machine. */
  ghost function Fed(pv: bool, f: Fsm, d: Doc, k: Key): Fsm
    requires d.Ok() && Good(f)
  {
    var x := d.Line();
    match k
    case Insert(ch) => Type(f, pv, ch)
    case Right => if x.cursor == |x.chars| then f else Type(f, pv, x.chars[x.cursor])
    case _ => if x.cursor == 0 then f else Erase(f)
  }

  /** Insertion must not be refused by the line while the machine still takes characters, and the cursor
  must not come back from beyond the last character that the machine takes. */
  ghost predicate Fits(d: Doc, k: Key)
    requires d.Ok()
  {
    match k
    case Insert(ch) => Takes(d.Line(), ch) || d.Line().cursor >= MAX_LINE - 1
    case Right => true
    case _ => d.Line().cursor < MAX_LINE
  }

  lemma InsertSteps(pv: bool, root: Node, d: Doc, f: Fsm, ch: char)
    requires d.Ok() && InStep(pv, root, f, d.Left()) && !Erases(ch)
    ensures Edited(d, Insert(ch)).Ok()
    ensures InStep(pv, root, Fed(pv, f, d, Insert(ch)), Edited(d, Insert(ch)).Left()) <==> Fits(d, Insert(ch))
  {
    hide Good, Same;
    var d' := Edited(d, Insert(ch));
    TypeInStep(pv, root, f, d.Left(), ch);
    InStepFacts(pv, root, f, d.Left());
    if Takes(d.Line(), ch) {
      assert d'.Left() == d.Left() + [ch];
    } else {
      assert d'.Left() == d.Left();
      var g := Type(f, pv, ch);
      if d.Line().cursor < MAX_LINE - 1 && InStep(pv, root, g, d.Left()) {
        InStepFacts(pv, root, g, d.Left());
      }
    }
  }

  lemma BackSteps(pv: bool, root: Node, d: Doc, f: Fsm, k: Key)
    requires d.Ok() && InStep(pv, root, f, d.Left()) && (k.Rubout? || k.Left?)
    ensures Edited(d, k).Ok()
    ensures InStep(pv, root, Fed(pv, f, d, k), Edited(d, k).Left()) <==> Fits(d, k)
  {
    hide Good, Same;
    var x := d.Line();
    if x.cursor > 0 {
      assert Edited(d, k).Left() == d.Left()[..x.cursor - 1];
      if x.cursor < MAX_LINE {
        EraseInStep(pv, root, f, d.Left());
      } else {
        EraseGood(f);
        InStepFacts(pv, root, f, d.Left());
        if InStep(pv, root, Erase(f), Edited(d, k).Left()) {
          InStepFacts(pv, root, Erase(f), Edited(d, k).Left());
        }
      }
    }
  }

  lemma ForwardSteps(pv: bool, root: Node, d: Doc, f: Fsm)
    requires d.Ok() && InStep(pv, root, f, d.Left())
    ensures Edited(d, Right).Ok() && InStep(pv, root, Fed(pv, f, d, Right), Edited(d, Right).Left())
  {
    hide Good, Same;
    var x := d.Line();
    if x.cursor < |x.chars| {
      TypeInStep(pv, root, f, d.Left(), x.chars[x.cursor]);
      assert Edited(d, Right).Left() == d.Left() + [x.chars[x.cursor]];
    }
  }

  /** From a machine in step, one key leaves it in step exactly when the key fits. */
  lemma OneKey(pv: bool, root: Node, d: Doc, f: Fsm, k: Key)
    requires d.Ok() && InStep(pv, root, f, d.Left()) && (k.Insert? || k.Rubout? || k.Left? || k.Right?)
    requires k.Insert? ==> !Erases(k.ch)
    ensures Edited(d, k).Ok()
    ensures InStep(pv, root, Fed(pv, f, d, k), Edited(d, k).Left()) <==> Fits(d, k)
  {
    hide InStep, Fed, Edited, Fits;
    match k
    case Insert(ch) => InsertSteps(pv, root, d, f, ch);
    case Right => ForwardFits(pv, root, d, f);
    case Rubout => BackSteps(pv, root, d, f, k);
    case Left => BackSteps(pv, root, d, f, k);
  }

  /** A line of 383 characters with the cursor at its end: the machine has read 382, and one erasure
  leaves them apart. */
  lemma LongLineSlips(pv: bool, root: Node)
    requires Height(root) < MAX_TOKENS
    ensures var w := seq(MAX_LINE, _ => 'x'); var d := Doc(seq(MAX_LINES, i => if i == 0 then Text(w, MAX_LINE) else Text("", 0)), 0, 0);
      && d.Ok() && InStep(pv, root, Replay(pv, root, w), d.Left())
      && Good(Replay(pv, root, w)) && !InStep(pv, root, Fed(pv, Replay(pv, root, w), d, Rubout), Edited(d, Rubout).Left())
  {
    var w := seq(MAX_LINE, _ => 'x');
    var d := Doc(seq(MAX_LINES, i => if i == 0 then Text(w, MAX_LINE) else Text("", 0)), 0, 0);
    assert d.Line() == Text(w, MAX_LINE) && d.Left() == w;
    OneKey(pv, root, d, Replay(pv, root, w), Rubout);
  }

  /** NUL, which the line refuses and the machine is fed: on an empty line they part. */
  lemma NulSlips(pv: bool, root: Node)
    requires Height(root) < MAX_TOKENS
    ensures var d := Doc(seq(MAX_LINES, _ => Text("", 0)), 0, 0);
      && d.Ok() && Good(Reset(root)) && InStep(pv, root, Reset(root), d.Left())
      && !InStep(pv, root, Fed(pv, Reset(root), d, Insert(NUL)), Edited(d, Insert(NUL)).Left())
  {
    var d := Doc(seq(MAX_LINES, _ => Text("", 0)), 0, 0);
    Restarted(pv, root);
    assert d.Left() == "";
    OneKey(pv, root, d, Reset(root), Insert(NUL));
  }

  lemma ForwardFits(pv: bool, root: Node, d: Doc, f: Fsm)
    requires d.Ok() && InStep(pv, root, f, d.Left())
    ensures Edited(d, Right).Ok() && Fits(d, Right) && InStep(pv, root, Fed(pv, f, d, Right), Edited(d, Right).Left())
  {
    hide InStep, Fed, Edited;
    ForwardSteps(pv, root, d, f);
  }

  // ---- the editor ------------------------------------------------------------------------

  /** Every line leaves the last character of the buffer alone. */
  ghost predicate Short(d: Doc) {
    d.Ok() && forall i :: 0 <= i < MAX_LINES ==> |d.lines[i].chars| < MAX_LINE
  }

  ghost predicate Plain(s: string) {
    forall i :: 0 <= i < |s| ==> !Erases(s[i]) && s[i] != NUL
  }

  /** The key types only characters other than NUL that do not erase, and the line stays short. */
  ghost predicate Roomy(d: Doc, k: Key)
    requires d.Ok()
  {
    match k
    case Insert(ch) => !Erases(ch) && ch != NUL && |d.Line().chars| + 1 < MAX_LINE
    case Enter(typed, root) => Plain(typed) && |d.Line().chars| + |typed| < MAX_LINE && Height(root) < MAX_TOKENS
    case _ => true
  }

  method NewLines() returns (ls: seq<Line>)
    ensures |ls| == MAX_LINES
    ensures forall i :: 0 <= i < |ls| ==> fresh(ls[i]) && fresh(ls[i].buf) && ls[i].Valid() && ls[i].Value() == Text("", 0)
    ensures forall i, j :: 0 <= i < j < |ls| ==> ls[i] != ls[j] && ls[i].buf != ls[j].buf
  {
    ls := [];
    while |ls| < MAX_LINES
      invariant |ls| <= MAX_LINES
      invariant forall i :: 0 <= i < |ls| ==> fresh(ls[i]) && fresh(ls[i].buf) && ls[i].Valid() && ls[i].Value() == Text("", 0)
      invariant forall i, j :: 0 <= i < j < |ls| ==> ls[i] != ls[j] && ls[i].buf != ls[j].buf
    {
      var l := new Line();
      ls := ls + [l];
    }
  }

  lemma EditedOk(d: Doc, k: Key)
    requires Short(d) && Roomy(d, k)
    ensures Short(Edited(d, k))
  {
    hide Inserted, InsertedAll;
    match k
    case Insert(ch) => InsertedFine(d.Line(), ch);
    case Enter(typed, root) => EnteredOk(d, typed, root);
    case _ =>
  }

  lemma InsertedFine(x: Text, ch: char)
    requires Fine(x) && Takes(x, ch) && !Erases(ch)
    ensures Fine(Inserted(x, ch)) && |Inserted(x, ch).chars| == |x.chars| + 1
  {
  }

  lemma {:induction false} AllInserted(x: Text, typed: string)
    requires Fine(x) && |x.chars| + |typed| <= MAX_LINE && Plain(typed)
    ensures Fine(InsertedAll(x, typed)) && |InsertedAll(x, typed).chars| == |x.chars| + |typed|
  {
    if typed != "" {
      AllInserted(x, typed[..|typed| - 1]);
      InsertedFine(InsertedAll(x, typed[..|typed| - 1]), typed[|typed| - 1]);
    }
  }

  lemma EnteredOk(d: Doc, typed: string, root: Node)
    requires Short(d) && Roomy(d, Enter(typed, root))
    ensures Short(Edited(d, Enter(typed, root)))
  {
    hide InsertedAll;
    AllInserted(d.Line(), typed);
  }

  ghost predicate AllRoomy(d: Doc, keys: seq<Key>)
    requires Short(d)
    decreases |keys|
  {
    keys == [] || (Roomy(d, keys[0]) && (EditedOk(d, keys[0]); AllRoomy(Edited(d, keys[0]), keys[1..])))
  }

  ghost function EditedAll(d: Doc, keys: seq<Key>): (d': Doc)
    requires Short(d) && AllRoomy(d, keys)
    ensures Short(d')
    decreases |keys|
  {
    if keys == [] then d else EditedOk(d, keys[0]); EditedAll(Edited(d, keys[0]), keys[1..])
  }

  /** cparser_t: the machine, the lines with their cursors, and the root of the current mode. */
  class Cparser {
    const machine: Machine
    const lines: seq<Line>
    var root: Node
    var curLine: nat
    var maxLine: nat
    ghost var doc: Doc

    ghost predicate Apart()
      reads this
    {
      && |lines| == MAX_LINES
      && (forall i, j :: 0 <= i < j < MAX_LINES ==> lines[i] != lines[j] && lines[i].buf != lines[j].buf)
    }

    /** The document is what the lines hold. */
    ghost predicate Valid()
      reads this, machine, machine.tokens, lines, set i | 0 <= i < |lines| :: lines[i].buf
    {
      && Apart() && doc.Ok() && doc.cur == curLine && doc.max == maxLine
      && (forall i :: 0 <= i < MAX_LINES ==> lines[i].Valid() && lines[i].Value() == doc.lines[i])
      && Height(root) < MAX_TOKENS && Good(machine.View())
    }

    /** The machine is in step with the text left of the cursor. */
    ghost predicate Synced()
      requires Valid()
      reads this, machine, machine.tokens, lines, set i | 0 <= i < |lines| :: lines[i].buf
    {
      InStep(machine.pv, root, machine.View(), doc.Left())
    }

    // cparser_init
    constructor (pv: bool, root: Node)
      requires Height(root) < MAX_TOKENS
      ensures Valid() && Synced() && fresh(machine) && this.root == root
      ensures doc == Doc(seq(MAX_LINES, _ => Text("", 0)), 0, 0)
    {
      var ls := NewLines();
      lines := ls;
      machine := new Machine(pv, root);
      this.root := root;
      curLine, maxLine := 0, 0;
      doc := Doc(seq(MAX_LINES, _ => Text("", 0)), 0, 0);
      new;
      Restarted(pv, root);
    }

    /** One character for the machine, which has read w. */
    method Feed(ch: char, ghost w: string)
      requires Good(machine.View()) && !Erases(ch) && InStep(machine.pv, root, machine.View(), w)
      modifies machine, machine.tokens
      ensures Good(machine.View()) && InStep(machine.pv, root, machine.View(), w + [ch])
    {
      InStepFacts(machine.pv, root, machine.View(), w);
      TypeInStep(machine.pv, root, machine.View(), w, ch);
      machine.Input(ch);
    }

    method Unfeed(ghost w: string)
      requires Good(machine.View()) && 0 < |w| < MAX_LINE && InStep(machine.pv, root, machine.View(), w)
      modifies machine, machine.tokens
      ensures Good(machine.View()) && InStep(machine.pv, root, machine.View(), w[..|w| - 1])
    {
      InStepFacts(machine.pv, root, machine.View(), w);
      EraseInStep(machine.pv, root, machine.View(), w);
      machine.Input(BACKSPACE);
    }

    // the case CPARSER_CHAR_REGULAR of cparser_input, for a character that goes into the line
    method PressInsert(ch: char)
      requires Valid() && Synced() && Short(doc) && Roomy(doc, Insert(ch))
      modifies this, machine, machine.tokens, lines[curLine], lines[curLine].buf
      ensures Valid() && Synced() && root == old(root) && doc == Edited(old(doc), Insert(ch))
    {
      hide Edited, InStep, Good, Fine;
      InsertedLeft(doc, ch);
      var ok := lines[curLine].Insert(ch);
      ghost var d := doc;
      doc := Edited(doc, Insert(ch));
      Feed(ch, d.Left());
    }

    // the same case, for a character that erases
    method PressRubout()
      requires Valid() && Synced() && Short(doc)
      modifies this, machine, machine.tokens, lines[curLine], lines[curLine].buf
      ensures Valid() && Synced() && root == old(root) && doc == Edited(old(doc), Rubout)
    {
      hide Edited, InStep, Good, Fine;
      DeletedLeft(doc, Rubout);
      var ok := lines[curLine].Delete();
      ghost var d := doc;
      doc := Edited(doc, Rubout);
      if !ok {
        return;
      }
      Unfeed(d.Left());
    }

    // CPARSER_CHAR_LEFT_ARROW
    method PressLeft() returns (moved: bool)
      requires Valid() && Synced() && Short(doc)
      modifies this, machine, machine.tokens, lines[curLine]
      ensures Valid() && Synced() && root == old(root) && doc == Edited(old(doc), Left)
      ensures moved <==> old(doc).Line().cursor > 0
    {
      hide Edited, InStep, Good, Fine;
      DeletedLeft(doc, Left);
      var ch := lines[curLine].PrevChar();
      ghost var d := doc;
      doc := Edited(doc, Left);
      if ch == "" {
        return false;
      }
      Unfeed(d.Left());
      moved := true;
    }

    // CPARSER_CHAR_RIGHT_ARROW
    method PressRight() returns (moved: bool)
      requires Valid() && Synced()
      modifies this, machine, machine.tokens, lines[curLine]
      ensures Valid() && Synced() && root == old(root) && doc == Edited(old(doc), Right)
      ensures moved <==> old(doc).Line().cursor < |old(doc).Line().chars|
    {
      hide Edited, InStep, Good, Fine;
      PassedLeft(doc);
      var ch := lines[curLine].NextChar();
      ghost var d := doc;
      doc := Edited(doc, Right);
      if ch == "" {
        return false;
      }
      Feed(ch[0], d.Left());
      moved := true;
    }

    // CPARSER_CHAR_FIRST
    method PressFirst()
      requires Valid() && Synced() && Short(doc)
      modifies this, machine, machine.tokens, lines[curLine]
      ensures Valid() && Synced() && root == old(root) && doc == Edited(old(doc), First)
    {
      ghost var d := doc;
      var moved := true;
      while moved
        invariant Valid() && Synced() && root == old(root) && curLine == old(curLine)
        invariant doc == d.SetLine(d.Line().(cursor := doc.Line().cursor)) && doc.Line().cursor <= d.Line().cursor
        invariant !moved ==> doc.Line().cursor == 0
        decreases doc.Line().cursor, moved
      {
        moved := PressLeft();
      }
    }

    // CPARSER_CHAR_LAST
    method PressLast()
      requires Valid() && Synced()
      modifies this, machine, machine.tokens, lines[curLine]
      ensures Valid() && Synced() && root == old(root) && doc == Edited(old(doc), Last)
    {
      ghost var d := doc;
      var moved := true;
      while moved
        invariant Valid() && Synced() && root == old(root) && curLine == old(curLine)
        invariant doc == d.SetLine(d.Line().(cursor := doc.Line().cursor))
        invariant !moved ==> doc.Line().cursor == |d.Line().chars|
        decreases |d.Line().chars| - doc.Line().cursor, moved
      {
        moved := PressRight();
      }
    }

    /** Resets the machine and enters the text left of the cursor again. */
    method Reenter()
      requires Valid()
      modifies machine, machine.tokens
      ensures Valid() && Synced()
    {
      hide Good, InStep, Fine;
      Restarted(machine.pv, root);
      machine.Restart(root);
      var line := lines[curLine];
      var n := 0;
      assert doc.Left()[..0] == "";
      while n < line.current
        invariant 0 <= n <= line.current && Valid()
        invariant InStep(machine.pv, root, machine.View(), doc.Left()[..n])
      {
        CharOfLine(doc, n);
        Feed(line.buf[n], doc.Left()[..n]);
        n := n + 1;
      }
      assert doc.Left()[..n] == doc.Left();
    }

    // CPARSER_CHAR_UP_ARROW, with cparser_line_prev_line
    method PressUp()
      requires Valid()
      modifies this, machine, machine.tokens
      ensures Valid() && Synced() && root == old(root) && doc == Edited(old(doc), Up)
    {
      doc := Edited(doc, Up);
      if curLine == 0 {
        curLine := maxLine;
      } else {
        curLine := curLine - 1;
      }
      Reenter();
    }

    // CPARSER_CHAR_DOWN_ARROW, with cparser_line_next_line
    method PressDown()
      requires Valid()
      modifies this, machine, machine.tokens
      ensures Valid() && Synced() && root == old(root) && doc == Edited(old(doc), Down)
    {
      doc := Edited(doc, Down);
      curLine := curLine + 1;
      if maxLine < curLine {
        curLine := 0;
      }
      Reenter();
    }

    /** The rest of the line goes to the machine. */
    method FeedRest()
      requires Valid() && Synced()
      modifies machine, machine.tokens
      ensures Valid() && InStep(machine.pv, root, machine.View(), doc.Line().chars)
    {
      hide Good, InStep, Fine;
      var line := lines[curLine];
      ghost var x := doc.Line();
      assert doc.Left() == x.chars[..x.cursor];
      for n := line.current to line.last
        invariant Valid() && InStep(machine.pv, root, machine.View(), x.chars[..n])
      {
        CharIn(doc, n);
        Feed(line.buf[n], x.chars[..n]);
      }
      assert x.chars[..line.last] == x.chars;
    }

    /** What completion types goes to the machine, and into the line at the cursor. */
    method FeedTyped(typed: string)
      requires Valid() && InStep(machine.pv, root, machine.View(), doc.Line().chars)
      requires Short(doc) && Plain(typed) && |doc.Line().chars| + |typed| < MAX_LINE
      modifies this`doc, machine, machine.tokens, lines[curLine], lines[curLine].buf
      ensures Valid() && doc == old(doc).SetLine(InsertedAll(old(doc).Line(), typed))
    {
      hide Good, InStep, Fine, Inserted;
      ghost var w := doc.Line().chars;
      ghost var d := doc;
      assert w + typed[..0] == w;
      for n := 0 to |typed|
        invariant Valid() && doc == d.SetLine(InsertedAll(d.Line(), typed[..n]))
        invariant InStep(machine.pv, root, machine.View(), w + typed[..n])
      {
        TypedMore(d, typed, n);
        var ok := lines[curLine].Insert(typed[n]);
        doc := d.SetLine(InsertedAll(d.Line(), typed[..n + 1]));
        Feed(typed[n], w + typed[..n]);
        assert w + typed[..n] + [typed[n]] == w + typed[..n + 1];
      }
      assert typed[..|typed|] == typed;
    }

    /** The machine starts over, perhaps in another mode. */
    method Renew(mode: Node)
      requires Valid() && Height(mode) < MAX_TOKENS
      modifies this`root, machine, machine.tokens
      ensures Valid() && root == mode && InStep(machine.pv, root, machine.View(), "")
    {
      root := mode;
      machine.Restart(root);
      Restarted(machine.pv, root);
    }

    // cparser_line_advance
    method Advance()
      requires Valid()
      modifies this`curLine, this`maxLine, this`doc, lines[NextLine(doc)], lines[NextLine(doc)].buf
      ensures Valid() && doc == Advanced(old(doc))
    {
      hide Good;
      ghost var next := NextLine(doc);
      curLine := curLine + 1;
      if MAX_LINES <= curLine {
        curLine := 0;
      }
      if maxLine < curLine {
        maxLine := curLine;
      }
      lines[curLine].Clear();
      doc := Advanced(doc);
    }

    // the newline in cparser_input, with the reset in cparser_execute_cmd
    method PressEnter(typed: string, mode: Node)
      requires Valid() && Synced() && Short(doc) && Roomy(doc, Enter(typed, mode))
      modifies this, machine, machine.tokens, lines, set i | 0 <= i < |lines| :: lines[i].buf
      ensures Valid() && Synced() && root == mode && doc == Edited(old(doc), Enter(typed, mode))
    {
      hide Good, InStep, Fine, InsertedAll;
      EnteredOk(doc, typed, mode);
      FeedRest();
      FeedTyped(typed);
      Renew(mode);
      Advance();
      assert doc.Left() == "";
    }

    /** cparser_input, once it is known what the key amounts to. */
    method Press(k: Key)
      requires Valid() && Synced() && Short(doc) && Roomy(doc, k)
      modifies this, machine, machine.tokens, lines, set i | 0 <= i < |lines| :: lines[i].buf
      ensures Valid() && Synced() && root == RootAfter(old(root), k) && doc == Edited(old(doc), k)
    {
      hide Good, InStep, Fine, Edited, Same, Replay;
      match k
      case Insert(ch) => PressInsert(ch);
      case Rubout => PressRubout();
      case Left => var _ := PressLeft();
      case Right => var _ := PressRight();
      case First => PressFirst();
      case Last => PressLast();
      case Up => PressUp();
      case Down => PressDown();
      case Enter(typed, mode) => PressEnter(typed, mode);
    }

    /** Any sequence of keys on lines that stay short: the lines hold what the keys say, and the
    machine what a reset and replaying the text left of the cursor gives. */
    method Session(keys: seq<Key>)
      requires Valid() && Synced() && Short(doc) && AllRoomy(doc, keys)
      modifies this, machine, machine.tokens, lines, set i | 0 <= i < |lines| :: lines[i].buf
      ensures Valid() && Synced() && doc == EditedAll(old(doc), keys) && Short(doc)
    {
      hide Good, InStep, Fine, Edited, Same, Replay, Roomy;
      ghost var d := doc;
      assert keys[0..] == keys;
      for n := 0 to |keys|
        invariant Valid() && Synced() && Short(doc) && AllRoomy(doc, keys[n..])
        invariant EditedAll(d, keys) == EditedAll(doc, keys[n..])
      {
        EditedOk(doc, keys[n]);
        assert keys[n..][1..] == keys[n + 1..];
        Press(keys[n]);
      }
    }
  }

  lemma InsertedLeft(d: Doc, ch: char)
    requires d.Ok() && Roomy(d, Insert(ch))
    ensures Edited(d, Insert(ch)) == d.SetLine(Inserted(d.Line(), ch))
    ensures Edited(d, Insert(ch)).Ok() && Edited(d, Insert(ch)).Left() == d.Left() + [ch]
  {
  }

  lemma DeletedLeft(d: Doc, k: Key)
    requires d.Ok() && (k.Rubout? || k.Left?)
    ensures Edited(d, k) == d.SetLine(if k.Rubout? then Deleted(d.Line()) else d.Line().(cursor := if d.Line().cursor == 0 then 0 else d.Line().cursor - 1))
    ensures var d' := Edited(d, k); d'.Ok() && d'.Left() == if d.Line().cursor == 0 then d.Left() else d.Left()[..d.Line().cursor - 1]
  {
  }

  lemma PassedLeft(d: Doc)
    requires d.Ok()
    ensures var d' := Edited(d, Right); var x := d.Line();
      d'.Ok() && d' == d.SetLine(x.(cursor := if x.cursor == |x.chars| then x.cursor else x.cursor + 1))
      && (if x.cursor == |x.chars| then d'.Left() == d.Left()
          else d'.Left() == d.Left() + [x.chars[x.cursor]] && !Erases(x.chars[x.cursor]))
  {
  }

  lemma CharOfLine(d: Doc, n: nat)
    requires d.Ok() && n < d.Line().cursor
    ensures d.Left()[..n + 1] == d.Left()[..n] + [d.Line().chars[n]] && !Erases(d.Line().chars[n])
  {
  }

  lemma CharIn(d: Doc, n: nat)
    requires d.Ok() && n < |d.Line().chars|
    ensures d.Line().chars[..n + 1] == d.Line().chars[..n] + [d.Line().chars[n]] && !Erases(d.Line().chars[n])
  {
  }

  lemma TypedMore(d: Doc, typed: string, n: nat)
    requires Short(d) && Plain(typed) && n < |typed| && |d.Line().chars| + |typed| < MAX_LINE
    ensures var y := InsertedAll(d.Line(), typed[..n]); var z := InsertedAll(d.Line(), typed[..n + 1]);
      z == Inserted(y, typed[n]) && d.SetLine(z).Ok() && !Erases(typed[n])
  {
    hide Inserted;
    assert typed[..n + 1][..n] == typed[..n];
    AllInserted(d.Line(), typed[..n + 1]);
  }
}
