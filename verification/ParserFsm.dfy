/** The incremental parser of the command line (src/cli_parser/cparser_fsm.c): a state machine over
typed characters with a stack of the tokens read so far, in which erasing undoes typing. */
module ParserFsm {
  import opened Tokens

  const MAX_TOKEN := 256
  const MAX_TOKENS := 32
  const MAX_LINE := 383

  /** A node of the parse tree. */
  datatype Node = Node(kind: Kind, hidden: bool, children: seq<Node>)

  /** A pointer to a node. */
  datatype Link = Null | Ptr(node: Node)

  /** cparser_token_t; text is buf up to token_len, of which alone anything is read. */
  datatype Token = Token(begin: int, text: string, parent: Link, node: Link)

  const BLANK := Token(-1, "", Null, Null)

  datatype State = Whitespace | InToken | Error

  datatype Fsm = Fsm(state: State, cur: Node, tos: nat, tokens: seq<Token>, pos: int, lastGood: int)
  {
    function Top(): Token
      requires tos < |tokens|
    {
      tokens[tos]
    }

    function SetTop(t: Token): Fsm
      requires tos < |tokens|
    {
      this.(tokens := tokens[tos := t])
    }
  }

  /** The two characters that erase. */
  const BACKSPACE := 8 as char
  const DELETE := 127 as char

  predicate Erases(ch: char) { ch == BACKSPACE || ch == DELETE }

  // ---- matching --------------------------------------------------------------------------

  function Height(n: Node): nat {
    Highest(n.children)
  }

  /** The longest way down from any of ns, counting their own level. */
  function Highest(ns: seq<Node>): nat {
    if ns == [] then 0
    else var h := 1 + Height(ns[0]); var r := Highest(ns[1..]); if h < r then r else h
  }

  lemma {:induction false} ChildHeight(ns: seq<Node>, i: nat)
    requires i < |ns|
    ensures Height(ns[i]) < Highest(ns)
  {
    if i > 0 {
      ChildHeight(ns[1..], i - 1);
    }
  }

  ghost predicate Usable(privileged: bool, n: Node) {
    privileged || !n.hidden
  }

  ghost predicate Hits(privileged: bool, n: Node, text: string, complete: bool) {
    Usable(privileged, n) && Judge(n.kind, text).ok && (complete ==> Judge(n.kind, text).complete)
  }

  /** i is the first child that matches, completely if asked. */
  ghost predicate FirstHit(privileged: bool, ns: seq<Node>, text: string, complete: bool, i: nat) {
    && i < |ns| && Hits(privileged, ns[i], text, complete)
    && forall j :: 0 <= j < i ==> !Hits(privileged, ns[j], text, complete)
  }

  /** Some child matches, completely if asked. */
  ghost predicate Matches(privileged: bool, ns: seq<Node>, text: string, complete: bool) {
    exists i: nat :: FirstHit(privileged, ns, text, complete, i)
  }

  /** The child that a token selects: the first complete match, or else the first match. */
  ghost function Chosen(privileged: bool, ns: seq<Node>, text: string): Node
    requires Matches(privileged, ns, text, false)
  {
    var complete := Matches(privileged, ns, text, true);
    var i: nat :| FirstHit(privileged, ns, text, complete, i);
    ns[i]
  }

  lemma ChosenIs(privileged: bool, ns: seq<Node>, text: string, i: nat)
    requires FirstHit(privileged, ns, text, Matches(privileged, ns, text, true), i)
    ensures Matches(privileged, ns, text, false) && Chosen(privileged, ns, text) == ns[i]
  {
    var complete := Matches(privileged, ns, text, true);
    if complete {
      Weaker(privileged, ns, text);
    }
    forall j: nat | FirstHit(privileged, ns, text, complete, j) ensures j == i {
      OneFirst(privileged, ns, text, complete, i, j);
    }
  }

  lemma OneFirst(privileged: bool, ns: seq<Node>, text: string, complete: bool, i: nat, j: nat)
    requires FirstHit(privileged, ns, text, complete, i) && FirstHit(privileged, ns, text, complete, j)
    ensures i == j
  {
    hide Hits;
  }

  lemma {:induction false} Least(privileged: bool, ns: seq<Node>, text: string, complete: bool, i: nat)
    requires i < |ns| && Hits(privileged, ns[i], text, complete)
    ensures Matches(privileged, ns, text, complete)
    decreases i
  {
    if j: nat :| j < i && Hits(privileged, ns[j], text, complete) {
      Least(privileged, ns, text, complete, j);
    } else {
      assert FirstHit(privileged, ns, text, complete, i);
    }
  }

  lemma Weaker(privileged: bool, ns: seq<Node>, text: string)
    requires Matches(privileged, ns, text, true)
    ensures Matches(privileged, ns, text, false)
  {
    var i: nat :| FirstHit(privileged, ns, text, true, i);
    Least(privileged, ns, text, false, i);
  }

  /** How many children match. */
  ghost function Count(privileged: bool, ns: seq<Node>, text: string): nat {
    if ns == [] then 0 else Count(privileged, ns[..|ns| - 1], text) + (if Hits(privileged, ns[|ns| - 1], text, false) then 1 else 0)
  }

  lemma {:induction false} CountNone(privileged: bool, ns: seq<Node>, text: string)
    ensures Count(privileged, ns, text) == 0 <==> forall j :: 0 <= j < |ns| ==> !Hits(privileged, ns[j], text, false)
  {
    hide Hits;
    if ns != [] {
      var n := |ns| - 1;
      CountNone(privileged, ns[..n], text);
      assert forall j :: 0 <= j < n ==> ns[..n][j] == ns[j];
    }
  }

  /** Child i alone matches. */
  ghost predicate OnlyHit(privileged: bool, ns: seq<Node>, text: string, i: nat) {
    && i < |ns| && Hits(privileged, ns[i], text, false)
    && forall j :: 0 <= j < |ns| && j != i ==> !Hits(privileged, ns[j], text, false)
  }

  lemma {:induction false} CountOne(privileged: bool, ns: seq<Node>, text: string, i: nat)
    requires i < |ns| && Hits(privileged, ns[i], text, false)
    ensures Count(privileged, ns, text) == 1 <==> OnlyHit(privileged, ns, text, i)
    ensures Count(privileged, ns, text) >= 1
    decreases |ns|
  {
    hide Hits;
    var n := |ns| - 1;
    assert forall j :: 0 <= j < n ==> ns[..n][j] == ns[j];
    if i == n {
      CountNone(privileged, ns[..n], text);
    } else {
      CountOne(privileged, ns[..n], text, i);
    }
  }

  /** One keyword begins with the token, and no other child matches it: it need not be typed out. */
  ghost predicate OnlyKeyword(privileged: bool, ns: seq<Node>, text: string) {
    exists i: nat :: OnlyHit(privileged, ns, text, i) && ns[i].kind.Keyword?
  }

  /** What cparser_match calls complete. */
  ghost predicate Completes(privileged: bool, ns: seq<Node>, text: string) {
    Matches(privileged, ns, text, true) || OnlyKeyword(privileged, ns, text)
  }

  lemma CompletesMatches(privileged: bool, ns: seq<Node>, text: string)
    requires Completes(privileged, ns, text)
    ensures Matches(privileged, ns, text, false)
  {
    hide Hits;
    if Matches(privileged, ns, text, true) {
      Weaker(privileged, ns, text);
    } else {
      var i: nat :| OnlyHit(privileged, ns, text, i);
      Least(privileged, ns, text, false, i);
    }
  }

  // cparser_match, with SHORTEST_UNIQUE_KEYWORD
  method Match(privileged: bool, text: string, ns: seq<Node>) returns (count: nat, best: Link, complete: bool)
    requires text != ""
    ensures count == Count(privileged, ns, text)
    ensures count == 0 <==> !Matches(privileged, ns, text, false)
    ensures count == 0 <==> best == Null
    ensures complete <==> Completes(privileged, ns, text)
    ensures complete ==> count > 0
    ensures count > 0 ==> best == Ptr(Chosen(privileged, ns, text))
  {
    hide Matches, Completes, FirstHit, Hits, Judge;
    count, best, complete := 0, Null, false;
    ghost var at: nat := 0;
    SeenNone(privileged, ns, text);
    for n := 0 to |ns|
      invariant Seen(privileged, ns, text, n, count, best, complete, at)
    {
      var child := ns[n];
      SeenStep(privileged, ns, text, n, count, best, complete, at);
      if privileged || !child.hidden {
        var v := MatchToken(child.kind, text);
        if v.ok {
          count := count + 1;
          if best == Null {
            at := n;
            best := Ptr(child);
            complete := v.complete;
          } else if !complete && v.complete {
            at := n;
            best := Ptr(child);
            complete := v.complete;
          }
        }
      }
    }
    SeenAll(privileged, ns, text, count, best, complete, at);
    if count == 1 && best.node.kind.Keyword? {
      complete := true;
    }
  }

  /** What the loop holds after n children; at is where the best one was found. */
  ghost predicate Seen(privileged: bool, ns: seq<Node>, text: string, n: nat, count: nat, best: Link, complete: bool, at: nat) {
    && n <= |ns| && count == Count(privileged, ns[..n], text)
    && (count == 0 <==> best == Null)
    && (count == 0 ==> !complete && forall j :: 0 <= j < n ==> !Hits(privileged, ns[j], text, false))
    && (count > 0 ==> at < n && best == Ptr(ns[at]) && FirstHit(privileged, ns, text, complete, at))
    && (complete <==> exists j :: 0 <= j < n && Hits(privileged, ns[j], text, true))
  }

  lemma SeenNone(privileged: bool, ns: seq<Node>, text: string)
    ensures Seen(privileged, ns, text, 0, 0, Null, false, 0)
  {
  }

  /** One more child: how it changes what the loop holds. */
  lemma SeenStep(privileged: bool, ns: seq<Node>, text: string, n: nat, count: nat, best: Link, complete: bool, at: nat)
    requires n < |ns| && Seen(privileged, ns, text, n, count, best, complete, at)
    ensures var ok := (privileged || !ns[n].hidden) && Judge(ns[n].kind, text).ok;
      var full := ok && Judge(ns[n].kind, text).complete;
      var better := ok && (best == Null || (!complete && full));
      Seen(privileged, ns, text, n + 1, if ok then count + 1 else count,
           if better then Ptr(ns[n]) else best, if better then full else complete, if better then n else at)
  {
    hide Judge;
    assert ns[..n + 1][..n] == ns[..n];
    if complete {
      var j :| 0 <= j < n && Hits(privileged, ns[j], text, true);
    }
    assert Hits(privileged, ns[n], text, true) ==> exists j :: 0 <= j < n + 1 && Hits(privileged, ns[j], text, true);
  }

  lemma SeenAll(privileged: bool, ns: seq<Node>, text: string, count: nat, best: Link, complete: bool, at: nat)
    requires Seen(privileged, ns, text, |ns|, count, best, complete, at)
    ensures count == Count(privileged, ns, text) && (count == 0 <==> best == Null) && (complete ==> count > 0)
    ensures complete <==> Matches(privileged, ns, text, true)
    ensures count == 0 ==> !Matches(privileged, ns, text, false) && !Completes(privileged, ns, text)
    ensures count > 0 ==> Matches(privileged, ns, text, false) && best == Ptr(Chosen(privileged, ns, text))
    ensures count > 0 ==> (OnlyKeyword(privileged, ns, text) <==> count == 1 && best.node.kind.Keyword?)
    ensures Completes(privileged, ns, text) <==> complete || OnlyKeyword(privileged, ns, text)
  {
    hide Hits;
    assert ns[..|ns|] == ns;
    CompleteFound(privileged, ns, text, complete);
    if count > 0 {
      SomeHit(privileged, ns, text, complete, at);
      ChosenIs(privileged, ns, text, at);
      UniqueFound(privileged, ns, text, at);
    } else {
      NoneFound(privileged, ns, text);
    }
  }

  lemma SomeHit(privileged: bool, ns: seq<Node>, text: string, complete: bool, at: nat)
    requires FirstHit(privileged, ns, text, complete, at)
    ensures Hits(privileged, ns[at], text, false)
  {
  }

  lemma CompleteFound(privileged: bool, ns: seq<Node>, text: string, complete: bool)
    requires complete <==> exists j :: 0 <= j < |ns| && Hits(privileged, ns[j], text, true)
    ensures complete <==> Matches(privileged, ns, text, true)
  {
    hide Hits;
    if j :| 0 <= j < |ns| && Hits(privileged, ns[j], text, true) {
      Least(privileged, ns, text, true, j);
    }
  }

  lemma UniqueFound(privileged: bool, ns: seq<Node>, text: string, at: nat)
    requires at < |ns| && Hits(privileged, ns[at], text, false)
    ensures OnlyKeyword(privileged, ns, text) <==> Count(privileged, ns, text) == 1 && ns[at].kind.Keyword?
  {
    hide Hits;
    CountOne(privileged, ns, text, at);
    if i: nat :| OnlyHit(privileged, ns, text, i) && ns[i].kind.Keyword? {
      assert i == at;
    }
  }

  lemma NoneFound(privileged: bool, ns: seq<Node>, text: string)
    requires forall j :: 0 <= j < |ns| ==> !Hits(privileged, ns[j], text, false)
    ensures !Matches(privileged, ns, text, false) && !Completes(privileged, ns, text)
  {
    hide Hits;
    if Completes(privileged, ns, text) {
      CompletesMatches(privileged, ns, text);
    }
  }

  // ---- the state functions ---------------------------------------------------------------

  /** There is room for as many tokens as the tree below cur can take, and every pushed token knows
  the node to go back to. */
  ghost predicate Good(f: Fsm) {
    && |f.tokens| == MAX_TOKENS && f.tos + Height(f.cur) < MAX_TOKENS
    && (forall i :: 0 <= i < f.tos ==> f.tokens[i].parent.Ptr? && i + Height(f.tokens[i].parent.node) < MAX_TOKENS)
  }

  // cparser_ws_char
  ghost function WsChar(f: Fsm, pv: bool, ch: char): Fsm
    requires Good(f)
  {
    if !Matches(pv, f.cur.children, [ch], false) then f.(state := Error)
    else f.SetTop(f.Top().(begin := f.pos, text := f.Top().text + [ch])).(state := InToken)
  }

  // cparser_tok_space
  ghost function TokSpace(f: Fsm, pv: bool): Fsm
    requires Good(f)
  {
    if Completes(pv, f.cur.children, f.Top().text) then
      CompletesMatches(pv, f.cur.children, f.Top().text);
      var match' := Chosen(pv, f.cur.children, f.Top().text);
      f.SetTop(f.Top().(parent := Ptr(f.cur), node := Ptr(match'))).(tos := f.tos + 1, cur := match', state := Whitespace)
    else f.(state := Error)
  }

  // cparser_tok_char
  ghost function TokChar(f: Fsm, pv: bool, ch: char): Fsm
    requires Good(f)
  {
    var t := f.Top().text + [ch];
    if |f.Top().text| < MAX_TOKEN && Matches(pv, f.cur.children, t, false) then f.SetTop(f.Top().(text := t))
    else f.(state := Error)
  }

  ghost function Read(f: Fsm, pv: bool, ch: char): Fsm
    requires Good(f)
  {
    match f.state
    case Whitespace => if ch == ' ' then f else WsChar(f, pv, ch)
    case InToken => if ch == ' ' then TokSpace(f, pv) else TokChar(f, pv, ch)
    case Error => f
  }

  // cparser_fsm_input for what does not erase
  ghost function Type(f: Fsm, pv: bool, ch: char): Fsm
    requires Good(f)
  {
    if f.pos >= MAX_LINE - 1 then f
    else
      var g := Read(f, pv, ch);
      g.(pos := f.pos + 1, lastGood := if g.state == Error then g.lastGood else f.pos)
  }

  // cparser_ws_erase, at pos > 0
  function WsErase(f: Fsm): Fsm
    requires |f.tokens| == MAX_TOKENS && f.tos < MAX_TOKENS
    requires f.tos > 0 ==> f.tokens[f.tos - 1].parent.Ptr?
  {
    if f.tos > 0 && f.tokens[f.tos - 1].begin + |f.tokens[f.tos - 1].text| >= f.pos - 1 then
      var last := f.tokens[f.tos - 1];
      f.(state := InToken, cur := last.parent.node, tos := f.tos - 1, pos := f.pos - 1,
         tokens := f.tokens[f.tos - 1 := last.(parent := Null)][f.tos := BLANK])
    else f.(pos := f.pos - 1)
  }

  function Chop(s: string): string { if s == "" then "" else s[..|s| - 1] }

  // cparser_tok_erase
  function TokErase(f: Fsm): Fsm
    requires |f.tokens| == MAX_TOKENS && f.tos < MAX_TOKENS
  {
    var t := Chop(f.Top().text);
    if t == "" then f.SetTop(f.Top().(text := t, begin := -1)).(pos := f.pos - 1, state := Whitespace)
    else f.SetTop(f.Top().(text := t)).(pos := f.pos - 1)
  }

  // cparser_err_erase
  function ErrErase(f: Fsm): Fsm
    requires |f.tokens| == MAX_TOKENS && f.tos < MAX_TOKENS
  {
    f.(pos := f.pos - 1,
       state := if f.lastGood + 1 != f.pos - 1 then Error
                else if f.Top().begin + |f.Top().text| >= f.pos - 1 then InToken
                else Whitespace)
  }

  // cparser_fsm_input for what erases
  ghost function Erase(f: Fsm): Fsm
    requires Good(f)
  {
    var g := match f.state case Whitespace => WsErase(f) case InToken => TokErase(f) case Error => ErrErase(f);
    g.(lastGood := if g.state == Error then g.lastGood else g.pos - 1)
  }

  // cparser_fsm_reset
  function Reset(root: Node): Fsm {
    Fsm(Whitespace, root, 0, seq(MAX_TOKENS, i => BLANK), 0, -1)
  }

  // ---- replaying -------------------------------------------------------------------------

  lemma ChosenIn(pv: bool, ns: seq<Node>, text: string)
    requires Matches(pv, ns, text, false)
    ensures Height(Chosen(pv, ns, text)) < Highest(ns)
  {
    var complete := Matches(pv, ns, text, true);
    var i: nat :| FirstHit(pv, ns, text, complete, i);
    ChosenIs(pv, ns, text, i);
    ChildHeight(ns, i);
  }

  lemma TypeGood(f: Fsm, pv: bool, ch: char)
    requires Good(f)
    ensures Good(Type(f, pv, ch))
  {
    hide Matches, Chosen, Completes;
    if Completes(pv, f.cur.children, f.Top().text) {
      CompletesMatches(pv, f.cur.children, f.Top().text);
      ChosenIn(pv, f.cur.children, f.Top().text);
    }
  }

  lemma EraseGood(f: Fsm)
    requires Good(f)
    ensures Good(Erase(f))
  {
  }

  /** What the machine holds after a reset and typing w. */
  ghost function Replay(pv: bool, root: Node, w: string): (f: Fsm)
    requires Height(root) < MAX_TOKENS
    ensures Good(f)
  {
    if w == "" then Reset(root)
    else
      var f := Replay(pv, root, w[..|w| - 1]);
      TypeGood(f, pv, w[|w| - 1]);
      Type(f, pv, w[|w| - 1])
  }

  /** How typed text leaves the machine. */
  ghost predicate Typed(f: Fsm) {
    && Good(f) && 0 <= f.pos < MAX_LINE && -1 <= f.lastGood
    && (forall i :: f.tos < i < MAX_TOKENS ==> f.tokens[i] == BLANK)
    && f.Top().parent == Null && f.Top().node == Null
    && match f.state
       case Whitespace => f.Top() == BLANK && f.lastGood == f.pos - 1 && LastBefore(f, f.pos)
       case InToken => TokenEndsAt(f, f.pos) && f.lastGood == f.pos - 1 && LastBefore(f, f.Top().begin)
       case Error => f.lastGood + 1 < f.pos && (f.Top() == BLANK || TokenEndsAt(f, f.lastGood + 1))
  }

  /** The token last pushed ends before p. */
  ghost predicate LastBefore(f: Fsm, p: int)
    requires Good(f)
  {
    f.tos > 0 ==> f.tokens[f.tos - 1].begin + |f.tokens[f.tos - 1].text| < p
  }

  ghost predicate TokenEndsAt(f: Fsm, p: int)
    requires Good(f)
  {
    f.Top().text != "" && f.Top().begin >= 0 && f.Top().begin + |f.Top().text| == p
  }

  lemma TypeTyped(f: Fsm, pv: bool, ch: char)
    requires Typed(f)
    ensures Typed(Type(f, pv, ch))
  {
    hide Matches, Chosen, Completes;
    TypeGood(f, pv, ch);
  }

  lemma {:induction false} ReplayTyped(pv: bool, root: Node, w: string)
    requires Height(root) < MAX_TOKENS
    ensures Typed(Replay(pv, root, w)) && |Replay(pv, root, w).tokens| == 32
    ensures Replay(pv, root, w).pos == if |w| < MAX_LINE then |w| else MAX_LINE - 1
  {
    if w != "" {
      ReplayTyped(pv, root, w[..|w| - 1]);
      TypeTyped(Replay(pv, root, w[..|w| - 1]), pv, w[|w| - 1]);
    }
  }

  /** Token t, if it has begun, is what stands in w from where it begins. */
  ghost predicate Cut(t: Token, w: string) {
    t.begin >= 0 ==> t.begin + |t.text| <= |w| && t.text == w[t.begin..t.begin + |t.text|]
  }

  ghost predicate AllCut(f: Fsm, w: string)
    requires Good(f)
  {
    forall i :: 0 <= i <= f.tos ==> Cut(f.tokens[i], w)
  }

  lemma CutMore(t: Token, w: string, ch: char)
    requires Cut(t, w)
    ensures Cut(t, w + [ch])
    ensures t.begin >= 0 && t.begin + |t.text| == |w| ==> Cut(t.(text := t.text + [ch]), w + [ch])
  {
    var u := w + [ch];
    if t.begin >= 0 {
      assert u[t.begin..t.begin + |t.text|] == w[t.begin..t.begin + |t.text|];
      if t.begin + |t.text| == |w| {
        assert u[t.begin..] == t.text + [ch];
      }
    }
  }

  lemma TypeCut(f: Fsm, pv: bool, w: string, ch: char)
    requires Typed(f) && AllCut(f, w) && (f.pos < MAX_LINE - 1 ==> f.pos == |w|)
    ensures Good(Type(f, pv, ch)) && AllCut(Type(f, pv, ch), w + [ch])
  {
    hide Matches, Chosen, Completes, Cut;
    TypeGood(f, pv, ch);
    forall i | 0 <= i <= f.tos ensures Cut(f.tokens[i], w + [ch]) {
      CutMore(f.tokens[i], w, ch);
    }
    CutMore(f.Top(), w, ch);
    CutBlank(w + [ch]);
    CutNew(w, ch);
    CutLinks(f.Top(), w + [ch]);
    assert f.state == Whitespace ==> f.Top() == BLANK && f.Top().text + [ch] == [ch];
    assert f.tos + 1 < MAX_TOKENS ==> f.tokens[f.tos + 1] == BLANK;
  }

  lemma CutLinks(t: Token, w: string)
    requires Cut(t, w)
    ensures forall l, m :: Cut(t.(parent := l, node := m), w)
  {
  }

  lemma CutBlank(w: string)
    ensures Cut(BLANK, w)
  {
  }

  lemma CutNew(w: string, ch: char)
    ensures forall l, m :: Cut(Token(|w|, [ch], l, m), w + [ch])
  {
    assert (w + [ch])[|w|..|w| + 1] == [ch];
  }

  /** The tokens are cut from the text typed: each is what stands where it begins, and the one being read
  reaches up to its end. */
  lemma {:induction false} TokensCut(pv: bool, root: Node, w: string)
    requires Height(root) < MAX_TOKENS
    ensures AllCut(Replay(pv, root, w), w)
    ensures var f := Replay(pv, root, w); |w| <= 382 && f.state == InToken ==> 0 <= f.Top().begin < |w| && f.Top().text == w[f.Top().begin..]
  {
    hide Type, AllCut, Typed;
    ReplayTyped(pv, root, w);
    if w == "" {
      NothingCut(root);
    } else {
      var v, ch := w[..|w| - 1], w[|w| - 1];
      TokensCut(pv, root, v);
      ReplayTyped(pv, root, v);
      TypeCut(Replay(pv, root, v), pv, v, ch);
      assert w == v + [ch];
    }
    if |w| <= 382 {
      TopCut(Replay(pv, root, w), w);
    }
  }

  lemma NothingCut(root: Node)
    requires Height(root) < MAX_TOKENS
    ensures AllCut(Reset(root), "")
  {
  }

  lemma TopCut(f: Fsm, w: string)
    requires Typed(f) && AllCut(f, w) && f.pos == |w|
    ensures f.state == InToken ==> 0 <= f.Top().begin < |w| && f.Top().text == w[f.Top().begin..]
  {
    assert Cut(f.Top(), w);
  }

  // ---- erasing undoes typing -------------------------------------------------------------

  /** Nothing but what a popped token matched may differ. */
  ghost predicate Same(f: Fsm, g: Fsm) {
    && f.(tokens := g.tokens) == g && |f.tokens| == |g.tokens|
    && (forall i :: 0 <= i < |f.tokens| ==> f.tokens[i].(node := g.tokens[i].node) == g.tokens[i] && (i < f.tos ==> f.tokens[i] == g.tokens[i]))
  }

  lemma UndoInWhitespace(f: Fsm, pv: bool, ch: char)
    requires Typed(f) && f.pos < MAX_LINE - 1 && f.state == Whitespace && Good(Type(f, pv, ch))
    ensures Same(Erase(Type(f, pv, ch)), f)
  {
    hide Matches, Chosen, Completes;
    var g := Type(f, pv, ch);
    if g.state == InToken {
      assert Chop(g.Top().text) == "";
    }
  }

  lemma UndoInToken(f: Fsm, pv: bool, ch: char)
    requires Typed(f) && f.pos < MAX_LINE - 1 && f.state == InToken && Good(Type(f, pv, ch))
    ensures Same(Erase(Type(f, pv, ch)), f)
  {
    hide Matches, Chosen, Completes;
    var g := Type(f, pv, ch);
    if g.state == InToken {
      assert Chop(g.Top().text) == f.Top().text;
    }
  }

  /** Erasing takes back exactly what was typed last. */
  lemma EraseUndoes(f: Fsm, pv: bool, ch: char)
    requires Typed(f) && f.pos < MAX_LINE - 1
    ensures Good(Type(f, pv, ch)) && Same(Erase(Type(f, pv, ch)), f)
  {
    hide Matches, Chosen, Completes;
    TypeGood(f, pv, ch);
    match f.state
    case Whitespace => UndoInWhitespace(f, pv, ch);
    case InToken => UndoInToken(f, pv, ch);
    case Error =>
  }

  lemma TypeSame(f: Fsm, g: Fsm, pv: bool, ch: char)
    requires Good(f) && Good(g) && Same(f, g)
    ensures Same(Type(f, pv, ch), Type(g, pv, ch))
  {
    hide Matches, Chosen, Completes;
  }

  lemma EraseSame(f: Fsm, g: Fsm)
    requires Good(f) && Good(g) && Same(f, g)
    ensures Same(Erase(f), Erase(g))
  {
  }

  lemma ReplayMore(pv: bool, root: Node, w: string, ch: char)
    requires Height(root) < MAX_TOKENS
    ensures Replay(pv, root, w + [ch]) == Type(Replay(pv, root, w), pv, ch)
  {
    assert (w + [ch])[..|w|] == w;
  }

  // ---- what is rejected ------------------------------------------------------------------

  lemma MatchesStarts(pv: bool, ns: seq<Node>, text: string)
    ensures Matches(pv, ns, text, false) <==> exists i :: 0 <= i < |ns| && Usable(pv, ns[i]) && Starts(ns[i].kind, text)
  {
    hide Judge, Starts;
    if Matches(pv, ns, text, false) {
      var i: nat :| FirstHit(pv, ns, text, false, i);
      JudgeStarts(ns[i].kind, text);
    }
    if i :| 0 <= i < |ns| && Usable(pv, ns[i]) && Starts(ns[i].kind, text) {
      JudgeStarts(ns[i].kind, text);
      Least(pv, ns, text, false, i);
    }
  }

  /** A character is rejected exactly when no word of a child that may be seen begins with the token and it. */
  lemma RejectsCharacter(f: Fsm, pv: bool, ch: char)
    requires Typed(f) && f.state != Error && f.pos < 382 && ch != ' ' && |f.Top().text| < 256
    ensures Type(f, pv, ch).state == Error <==>
            forall i :: 0 <= i < |f.cur.children| && (pv || !f.cur.children[i].hidden) ==> !Starts(f.cur.children[i].kind, f.Top().text + [ch])
  {
    hide Matches, Starts;
    MatchesStarts(pv, f.cur.children, f.Top().text + [ch]);
    assert f.state == Whitespace ==> f.Top().text + [ch] == [ch];
  }

  /** Tokens end at 256 characters, and lines at 382. */
  lemma RejectsLong(f: Fsm, pv: bool, ch: char)
    requires Typed(f) && f.pos < 382 && f.state == InToken && ch != ' ' && |f.Top().text| >= 256
    ensures Type(f, pv, ch).state == Error
  {
  }

  lemma IgnoresBeyond(pv: bool, root: Node, w: string, ch: char)
    requires Height(root) < MAX_TOKENS && |w| >= 382
    ensures Replay(pv, root, w + [ch]) == Replay(pv, root, w) && Replay(pv, root, w).pos == 382
  {
    ReplayTyped(pv, root, w);
    ReplayMore(pv, root, w, ch);
  }

  /** A child that may be seen and for which the token is finished. */
  ghost predicate Finishes(pv: bool, n: Node, text: string) {
    (pv || !n.hidden) && Judge(n.kind, text).complete
  }

  /** The first child for which the token is finished is entered. */
  lemma EntersFirst(f: Fsm, pv: bool, i: nat)
    requires Typed(f) && f.state == InToken && f.pos < 382 && i < |f.cur.children|
    requires Finishes(pv, f.cur.children[i], f.Top().text) && forall j :: 0 <= j < i ==> !Finishes(pv, f.cur.children[j], f.Top().text)
    ensures var g := Type(f, pv, ' ');
      && g.state == Whitespace && g.cur == f.cur.children[i] && g.tos == f.tos + 1
      && f.tos < |g.tokens| && g.tokens[f.tos] == f.Top().(parent := Ptr(f.cur), node := Ptr(g.cur))
  {
    FirstFinished(pv, f.cur.children, f.Top().text, i);
    hide Matches, Chosen, FirstHit, Judge;
  }

  lemma FirstFinished(pv: bool, ns: seq<Node>, text: string, i: nat)
    requires i < |ns| && Finishes(pv, ns[i], text) && forall j :: 0 <= j < i ==> !Finishes(pv, ns[j], text)
    ensures Matches(pv, ns, text, true) && Matches(pv, ns, text, false) && Chosen(pv, ns, text) == ns[i]
  {
    hide Judge;
    JudgeStarts(ns[i].kind, text);
    assert FirstHit(pv, ns, text, true, i);
    ChosenIs(pv, ns, text, i);
  }

  /** A blank after a token is rejected exactly when the token is finished for no usable child and is
  no unambiguous beginning of a keyword. */
  lemma RejectsBlank(f: Fsm, pv: bool)
    requires Typed(f) && f.state == InToken && f.pos < 382
    ensures Type(f, pv, ' ').state == Error <==>
            (forall i :: 0 <= i < |f.cur.children| ==> !Finishes(pv, f.cur.children[i], f.Top().text))
            && !OnlyKeyword(pv, f.cur.children, f.Top().text)
  {
    FinishesMatches(pv, f.cur.children, f.Top().text);
    hide Matches, Finishes, OnlyKeyword, Chosen;
  }

  lemma FinishesMatches(pv: bool, ns: seq<Node>, text: string)
    ensures Matches(pv, ns, text, true) <==> exists i :: 0 <= i < |ns| && Finishes(pv, ns[i], text)
  {
    hide Judge;
    if Matches(pv, ns, text, true) {
      var i: nat :| FirstHit(pv, ns, text, true, i);
      assert Finishes(pv, ns[i], text);
    }
    if i :| 0 <= i < |ns| && Finishes(pv, ns[i], text) {
      JudgeStarts(ns[i].kind, text);
      Least(pv, ns, text, true, i);
    }
  }

  /** What is rejected stays rejected, whatever is typed after it. */
  lemma {:induction false} StaysRejected(pv: bool, root: Node, w: string, v: string)
    requires Height(root) < MAX_TOKENS && Replay(pv, root, w).state == Error
    ensures Replay(pv, root, w + v).state == Error
  {
    if v == "" {
      assert w + v == w;
    } else {
      var n := |v| - 1;
      StaysRejected(pv, root, w, v[..n]);
      assert (w + v)[..|w + v| - 1] == w + v[..n];
    }
  }

  /** "sh " enters the only command, "show", and is an error beside "shut". */
  lemma AbbreviatedShow(pv: bool)
    ensures var show, shut := Node(Keyword("show"), false, []), Node(Keyword("shut"), false, []);
      && OnlyKeyword(pv, [show], "sh") && !Matches(pv, [show], "sh", true)
      && !Completes(pv, [show, shut], "sh") && Matches(pv, [show, shut], "sh", false)
      && Completes(pv, [show, shut], "sho")
  {
    var show, shut := Node(Keyword("show"), false, []), Node(Keyword("shut"), false, []);
    KeywordJudge("show", "sh");
    KeywordJudge("shut", "sh");
    KeywordJudge("show", "sho");
    KeywordJudge("shut", "sho");
    hide Judge;
    var one, two := [show], [show, shut];
    assert OnlyHit(pv, one, "sh", 0);
    assert two[0] == show && two[1] == shut;
    assert Hits(pv, two[0], "sh", false) && Hits(pv, two[1], "sh", false);
    assert FirstHit(pv, two, "sh", false, 0);
    assert !("sho" <= "shut") by {
      assert "sho"[2] != "shut"[2];
    }
    assert !Hits(pv, two[1], "sho", false) && Hits(pv, two[0], "sho", false);
    assert OnlyHit(pv, two, "sho", 0);
  }

  lemma KeywordJudge(word: string, text: string)
    ensures Judge(Keyword(word), text) == Verdict(text <= word, text == word)
  {
    assert text <= word ==> Word(Keyword(word), word);
  }

  /** The machine after "sh ", with "show" as the only command and beside "shut". */
  lemma TypedShow(pv: bool)
    ensures var show, shut := Node(Keyword("show"), false, []), Node(Keyword("shut"), false, []);
      var one, two := Node(Text, false, [show]), Node(Text, false, [show, shut]);
      && Height(one) < MAX_TOKENS && Height(two) < MAX_TOKENS
      && Replay(pv, one, "sh ").state == Whitespace && Replay(pv, one, "sh ").cur == show
      && Replay(pv, two, "sh ").state == Error
  {
    var show, shut := Node(Keyword("show"), false, []), Node(Keyword("shut"), false, []);
    var one, two := Node(Text, false, [show]), Node(Text, false, [show, shut]);
    AfterSh(pv, [show], 0);
    Flat([show, shut], show, shut);
    Flat([shut], shut, shut);
    AfterSh(pv, [show, shut], 0);
    AbbreviatedShow(pv);
    KeywordJudge("show", "sh");
    OnlyChosen(pv, [show], "sh");
    ReplayMore(pv, one, "sh", ' ');
    ReplayMore(pv, two, "sh", ' ');
    assert "sh" + [' '] == "sh ";
  }

  lemma Flat(ns: seq<Node>, n: Node, m: Node)
    requires n.children == [] && m.children == [] && (ns == [m] || ns == [n, m])
    ensures Highest(ns) == 1
  {
    assert Highest([m]) == 1 by {
      assert [m][1..] == [];
    }
    assert [n, m][1..] == [m];
  }

  lemma OnlyChosen(pv: bool, ns: seq<Node>, text: string)
    requires |ns| == 1 && Hits(pv, ns[0], text, false)
    ensures Matches(pv, ns, text, false) && Chosen(pv, ns, text) == ns[0]
  {
    hide Hits;
    Least(pv, ns, text, false, 0);
  }

  lemma AfterSh(pv: bool, ns: seq<Node>, i: nat)
    requires i < |ns| && ns[i].kind == Keyword("show") && !ns[i].hidden && Highest(ns) < MAX_TOKENS
    ensures var f := Replay(pv, Node(Text, false, ns), "sh");
      f.state == InToken && f.Top().text == "sh" && f.cur.children == ns && f.tos == 0 && f.pos == 2
  {
    hide Matches, Judge;
    var root := Node(Text, false, ns);
    KeywordJudge("show", "s");
    KeywordJudge("show", "sh");
    Least(pv, ns, "s", false, i);
    Least(pv, ns, "sh", false, i);
    ReplayMore(pv, root, "", 's');
    ReplayMore(pv, root, "s", 'h');
    assert "" + ['s'] == "s" && "s" + ['h'] == "sh" && ['s'] == "s";
  }

  // ---- the machine -----------------------------------------------------------------------

  /** The part of cparser_t that the state functions work on. */
  class Machine {
    const pv: bool
    var state: State
    var cur: Node
    var tos: nat
    const tokens: array<Token>
    var pos: int
    var lastGood: int

    constructor (pv: bool, root: Node)
      requires Height(root) < MAX_TOKENS
      ensures View() == Reset(root) && Good(View()) && fresh(tokens) && this.pv == pv
    {
      this.pv := pv;
      state, cur, tos, pos, lastGood := Whitespace, root, 0, 0, -1;
      tokens := new Token[MAX_TOKENS](i => BLANK);
    }

    ghost function View(): Fsm
      reads this, tokens
    {
      Fsm(state, cur, tos, tokens[..], pos, lastGood)
    }

    // cparser_fsm_reset, with cparser_token_stack_reset
    method Restart(root: Node)
      requires Good(View()) && Height(root) < MAX_TOKENS
      modifies this, tokens
      ensures View() == Reset(root) && Good(View())
    {
      lastGood, pos, tos := -1, 0, 0;
      for n := 0 to tokens.Length
        invariant lastGood == -1 && pos == 0 && tos == 0
        invariant forall i :: 0 <= i < n ==> tokens[i] == BLANK
      {
        tokens[n] := BLANK;
      }
      cur := root;
      state := Whitespace;
      assert tokens[..] == seq(MAX_TOKENS, i => BLANK);
    }

    method ReadWsChar(ch: char) returns (next: State)
      requires Good(View()) && state == Whitespace
      modifies this`tos, this`cur, tokens
      ensures View().(state := next) == WsChar(old(View()), pv, ch)
    {
      var count, best, complete := Match(pv, [ch], cur.children);
      if count == 0 {
        return Error;
      }
      tokens[tos] := tokens[tos].(begin := pos, text := tokens[tos].text + [ch]);
      next := InToken;
    }

    method ReadTokSpace() returns (next: State)
      requires Good(View()) && state == InToken && tokens[tos].text != ""
      modifies this`tos, this`cur, tokens
      ensures View().(state := next) == TokSpace(old(View()), pv)
    {
      var count, best, complete := Match(pv, tokens[tos].text, cur.children);
      if count >= 1 && complete {
        ghost var was := tokens[..];
        tokens[tos] := tokens[tos].(parent := Ptr(cur), node := best);
        assert tokens[..] == was[tos := was[tos].(parent := Ptr(cur), node := best)];
        tos := tos + 1;
        cur := best.node;
        return Whitespace;
      }
      next := Error;
    }

    method ReadTokChar(ch: char) returns (next: State)
      requires Good(View()) && state == InToken
      modifies tokens
      ensures View().(state := next) == TokChar(old(View()), pv, ch)
    {
      if |tokens[tos].text| >= MAX_TOKEN {
        return Error;
      }
      ghost var was := tokens[..];
      tokens[tos] := tokens[tos].(text := tokens[tos].text + [ch]);
      var count, best, complete := Match(pv, tokens[tos].text, cur.children);
      if count == 0 {
        tokens[tos] := tokens[tos].(text := Chop(tokens[tos].text));
        assert tokens[..] == was;
        return Error;
      }
      next := InToken;
    }

    method EraseWs() returns (next: State)
      requires Good(View()) && state == Whitespace && pos > 0
      modifies this`pos, this`tos, this`cur, tokens
      ensures View().(state := next) == WsErase(old(View()))
    {
      pos := pos - 1;
      if 0 < tos {
        var token := tokens[tos - 1];
        if token.begin + |token.text| >= pos {
          cur := token.parent.node;
          tokens[tos - 1] := token.(parent := Null);
          tokens[tos] := BLANK;
          tos := tos - 1;
          return InToken;
        }
      }
      next := Whitespace;
    }

    method EraseTok() returns (next: State)
      requires Good(View()) && state == InToken
      modifies this`pos, tokens
      ensures View().(state := next) == TokErase(old(View()))
    {
      tokens[tos] := tokens[tos].(text := Chop(tokens[tos].text));
      pos := pos - 1;
      if tokens[tos].text == "" {
        tokens[tos] := tokens[tos].(begin := -1);
        return Whitespace;
      }
      next := InToken;
    }

    method EraseErr() returns (next: State)
      requires Good(View()) && state == Error
      modifies this`pos
      ensures View().(state := next) == ErrErase(old(View()))
    {
      pos := pos - 1;
      if lastGood + 1 == pos {
        if tokens[tos].begin + |tokens[tos].text| >= pos {
          return InToken;
        }
        return Whitespace;
      }
      next := Error;
    }

    /** cparser_fsm_input.  A token being read is not empty. */
    method Input(ch: char)
      requires Good(View()) && (state == InToken ==> tokens[tos].text != "")
      requires Erases(ch) ==> pos > 0
      modifies this, tokens
      ensures Good(View())
      ensures View() == if ch as int == 8 || ch as int == 127 then Erase(old(View())) else Type(old(View()), pv, ch)
    {
      ghost var was := View();
      if Erases(ch) {
        EraseGood(was);
        var next;
        match state {
          case Whitespace => next := EraseWs();
          case InToken => next := EraseTok();
          case Error => next := EraseErr();
        }
        state := next;
        if state != Error {
          lastGood := pos - 1;
        }
        return;
      }
      TypeGood(was, pv, ch);
      if pos >= MAX_LINE - 1 {
        return;
      }
      var next := state;
      match state {
        case Whitespace =>
          if ch != ' ' {
            next := ReadWsChar(ch);
          }
        case InToken =>
          if ch == ' ' {
            next := ReadTokSpace();
          } else {
            next := ReadTokChar(ch);
          }
        case Error =>
      }
      state := next;
      pos := pos + 1;
      if state != Error {
        lastGood := pos - 1;
      }
    }
  }
}
