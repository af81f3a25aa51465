/** The state of the subscription trie as a value: which objects are its nodes, what their
fields hold, and the tree they form.  Each lemma takes one rewriting of the C code
(src/lib/trie.c) and shows that it keeps the trie in order and what it does to the
subscriptions. */
module TrieState {
  import opened TrieShape
  import opened TrieNode

  type Table = map<Key, set<SockId>>

  datatype State = State(root: Node?, nodes: map<Key, Node>, views: map<Key, NodeView>, shape: Shape)

  /** The place, if any, where the tree is open: a slot that exists but holds no child. */
  datatype Open = Closed | OpenRoot | OpenAt(k: Key, c: Byte)

  ghost function HoleIn(open: Open, k: Key): Hole {
    if open.OpenAt? && open.k == k then Hole(open.c) else NoHole
  }

  ghost function Members(s: seq<SockId>): set<SockId> {
    set x | x in s
  }

  ghost predicate KidsIn(kids: seq<Node?>, nodes: map<Key, Node>) {
    forall x :: x in kids && x != null ==> x.path in nodes && nodes[x.path] == x
  }

  ghost predicate Domain(st: State) {
    st.nodes.Keys == st.views.Keys == st.shape.Keys
  }

  ghost predicate Fields(v: NodeView, k: Key, edges: Edges, hole: Hole) {
    LabelOf(v, k) && KidsOf(v, edges, hole)
  }

  /** One node is in order.  A node without children is a subscription, unless exempt. */
  ghost predicate NodeOk(st: State, k: Key, hole: Hole, exempt: bool)
    requires Domain(st) && k in st.nodes
  {
    && st.nodes[k].path == k && 0 !in k
    && Fields(st.views[k], k, st.shape[k], hole)
    && KidsIn(st.views[k].kids, st.nodes)
    && (st.shape[k] == map[] && hole.NoHole? && !exempt ==> st.views[k].refcount > 0)
  }

  ghost predicate NodesOk(st: State, open: Open, pending: set<Key>)
    requires Domain(st)
  {
    forall k :: k in st.nodes ==> NodeOk(st, k, HoleIn(open, k), k in pending)
  }

  /** A child's string is its parent's, one branch character, and its own prefix. */
  ghost predicate Hung(st: State)
    requires Domain(st)
  {
    forall k, c {:trigger st.shape[k][c]} :: k in st.shape && c in st.shape[k] ==>
      st.shape[k][c] in st.views && |st.views[st.shape[k][c]].prefix| + |k| + 1 == |st.shape[k][c]|
  }

  lemma HungAt(st: State, k: Key, c: Byte)
    requires Domain(st) && Hung(st) && k in st.shape && c in st.shape[k]
    ensures st.shape[k][c] in st.views && |st.views[st.shape[k][c]].prefix| + |k| + 1 == |st.shape[k][c]|
  {
  }

  ghost predicate RootOk(st: State, open: Open)
    requires Domain(st)
  {
    if st.root == null then st.nodes == map[] && !open.OpenAt?
    else
      && open != OpenRoot && st.root.path in st.nodes && st.nodes[st.root.path] == st.root
      && Rooted(st.shape, st.root.path) && st.views[st.root.path].prefix == st.root.path
  }

  ghost predicate Good(st: State, open: Open, pending: set<Key>) {
    Domain(st) && IsTree(st.shape) && NodesOk(st, open, pending) && Hung(st) && RootOk(st, open)
  }

  /** The subscriptions the trie stands for. */
  ghost function Subs(st: State): Table {
    map k | k in st.views && st.views[k].refcount > 0 :: Members(st.views[k].sockids)
  }

  /** A table with one more subscriber for a string. */
  ghost function Added(t: Table, k: Key, s: SockId): Table {
    t[k := (if k in t then t[k] else {}) + {s}]
  }

  /** A table with one subscriber less for a string; a string without subscribers is gone. */
  ghost function Removed(t: Table, k: Key, s: SockId): Table
    requires k in t
  {
    if t[k] - {s} == {} then t - {k} else t[k := t[k] - {s}]
  }

  lemma {:induction false} Count(s: seq<SockId>)
    requires Distinct(s)
    ensures |Members(s)| == |s|
  {
    if s == [] {
      assert Members(s) == {};
    } else {
      var n := |s| - 1;
      Count(s[..n]);
      assert s == s[..n] + [s[n]];
      assert Members(s) == Members(s[..n]) + {s[n]};
    }
  }

  ghost predicate SameLabel(v: NodeView, w: NodeView) {
    v.prefix == w.prefix && v.refcount == w.refcount && v.sockids == w.sockids
  }

  lemma Named(st: State, open: Open, pending: set<Key>)
    requires Good(st, open, pending)
    ensures Domain(st) && forall k :: k in st.nodes ==> st.nodes[k].path == k
  {
    hide Fields, IsTree, Hung, RootOk, KidsIn;
    forall k | k in st.nodes
      ensures st.nodes[k].path == k
    {
      assert NodeOk(st, k, HoleIn(open, k), k in pending);
    }
  }

  lemma MoreValues(nodes: map<Key, Node>, n: Node)
    requires n.path !in nodes
    ensures nodes[n.path := n].Values == nodes.Values + {n}
  {
    var more := nodes[n.path := n];
    forall x | x in nodes.Values
      ensures x in more.Values
    {
      var k :| k in nodes && nodes[k] == x;
      assert k in more && more[k] == x;
    }
    assert n.path in more && more[n.path] == n;
  }

  // ---- general tools ----------------------------------------------------------------

  lemma SameSubs(st: State, t: State)
    requires forall k :: k in st.views && st.views[k].refcount > 0 ==>
      k in t.views && t.views[k].refcount == st.views[k].refcount && t.views[k].sockids == st.views[k].sockids
    requires forall k :: k in t.views && t.views[k].refcount > 0 ==> k in st.views && st.views[k].refcount > 0
    ensures Subs(t) == Subs(st)
  {
  }

  /** The node for m looks the same in t as in st. */
  ghost predicate Kept(st: State, t: State, m: Key)
    requires Domain(st) && Domain(t)
  {
    && m in st.nodes && m in t.nodes
    && t.nodes[m] == st.nodes[m] && t.views[m] == st.views[m] && t.shape[m] == st.shape[m]
    && KidsIn(st.views[m].kids, t.nodes)
  }

  lemma KeptOk(st: State, t: State, m: Key, hole: Hole, exempt: bool)
    requires Domain(st) && Domain(t) && Kept(st, t, m) && NodeOk(st, m, hole, exempt)
    ensures NodeOk(t, m, hole, exempt)
  {
  }

  /** Only the touched nodes need another look. */
  lemma Rewritten(st: State, open: Open, pending: set<Key>, t: State, open': Open, pending': set<Key>, touched: set<Key>)
    requires Domain(st) && Domain(t) && NodesOk(st, open, pending)
    requires forall m :: m in t.nodes && m !in touched ==>
      Kept(st, t, m) && HoleIn(open', m) == HoleIn(open, m) && (m in pending <==> m in pending')
    requires forall m :: m in t.nodes && m in touched ==> NodeOk(t, m, HoleIn(open', m), m in pending')
    ensures NodesOk(t, open', pending')
  {
    hide NodeOk, Kept;
    forall m | m in t.nodes
      ensures NodeOk(t, m, HoleIn(open', m), m in pending')
    {
      if m !in touched {
        assert Kept(st, t, m);
        InNodes(st, t, m);
        KeptOk(st, t, m, HoleIn(open, m), m in pending);
      }
    }
  }

  lemma InNodes(st: State, t: State, m: Key)
    requires Domain(st) && Domain(t) && Kept(st, t, m)
    ensures m in st.nodes
  {
  }

  lemma KidsInMore(kids: seq<Node?>, nodes: map<Key, Node>, n: Node)
    requires KidsIn(kids, nodes) && n.path !in nodes
    ensures KidsIn(kids, nodes[n.path := n])
  {
  }

  lemma AllKidsMore(st: State, open: Open, pending: set<Key>, n: Node)
    requires Domain(st) && NodesOk(st, open, pending) && n.path !in st.nodes
    ensures forall m :: m in st.nodes ==> KidsIn(st.views[m].kids, st.nodes[n.path := n])
  {
    hide Fields;
    forall m | m in st.nodes
      ensures KidsIn(st.views[m].kids, st.nodes[n.path := n])
    {
      assert NodeOk(st, m, HoleIn(open, m), m in pending);
      KidsInMore(st.views[m].kids, st.nodes, n);
    }
  }

  /** Every child in the array is the target of an edge. */
  lemma KidEdge(v: NodeView, edges: Edges, hole: Hole, x: Node)
    requires KidsOf(v, edges, hole) && x in v.kids
    ensures exists c :: c in edges && edges[c] == x.path
  {
    var j :| 0 <= j < |v.kids| && v.kids[j] == x;
    if v.typ == DENSE_TYPE {
      assert (v.min as int + j) as Byte in edges;
    } else {
      assert v.sparse[j] in edges;
    }
  }

  /** Only the parent has a node in its child array. */
  lemma KidsInLess(st: State, m: Key, hole: Hole, exempt: bool, k: Key, c: Byte)
    requires Domain(st) && IsTree(st.shape)
    requires m in st.nodes && NodeOk(st, m, hole, exempt) && k in st.shape && c in st.shape[k] && m != k
    ensures KidsIn(st.views[m].kids, st.nodes - {st.shape[k][c]})
  {
    var n := st.shape[k][c];
    forall x | x in st.views[m].kids && x != null
      ensures x.path != n
    {
      KidEdge(st.views[m], st.shape[m], hole, x);
      var d :| d in st.shape[m] && st.shape[m][d] == x.path;
      if x.path == n { OneParent(st.shape, m, d, k, c); }
    }
  }

  // ---- a new leaf -------------------------------------------------------------------

  ghost function AttachedRoot(n: Node, nv: NodeView): State {
    State(n, map[n.path := n], map[n.path := nv], map[n.path := map[]])
  }

  ghost function OpenAfter(path: Key, hole: Hole): Open {
    if hole.Hole? then OpenAt(path, hole.c) else Closed
  }

  lemma AttachRoot(n: Node, nv: NodeView, hole: Hole)
    requires nv.prefix == n.path && 0 !in n.path && Fields(nv, n.path, map[], hole)
    requires nv.refcount == 0 && forall x :: x in nv.kids ==> x == null
    ensures Good(AttachedRoot(n, nv), OpenAfter(n.path, hole), {n.path})
    ensures Subs(AttachedRoot(n, nv)) == map[]
  {
    hide Fields;
  }

  ghost function Attached(st: State, k: Key, c: Byte, v: NodeView, n: Node, nv: NodeView): State
    requires k in st.shape
  {
    State(st.root, st.nodes[n.path := n], st.views[k := v][n.path := nv],
          st.shape[k := st.shape[k][c := n.path]][n.path := map[]])
  }

  ghost predicate Fits(k: Key, c: Byte, n: Node, nv: NodeView) {
    Via(k, c, n.path) && |nv.prefix| + |k| + 1 == |n.path| && 0 !in n.path
  }

  ghost predicate AttachReady(st: State, k: Key, c: Byte, v: NodeView, n: Node, nv: NodeView, hole: Hole) {
    && Domain(st) && k in st.nodes && c !in st.shape[k] && n.path !in st.nodes
    && Fits(k, c, n, nv) && Fields(nv, n.path, map[], hole)
    && nv.refcount == 0 && (forall x :: x in nv.kids ==> x == null)
    && SameLabel(v, st.views[k]) && Fields(v, k, st.shape[k][c := n.path], NoHole)
    && (forall x :: x in v.kids && x != null && x != n ==> x in st.views[k].kids)
  }

  /** Filling an open slot with a fresh node meets the conditions of Attach. */
  lemma FillReady(st: State, k: Key, c: Byte, j: nat, n: Node, nv: NodeView, hole: Hole)
    requires Good(st, OpenAt(k, c), {}) && k in st.nodes && j < |st.views[k].kids|
    requires KidsOf(st.views[k].(kids := st.views[k].kids[j := n]), st.shape[k][c := n.path], NoHole)
    requires Fits(k, c, n, nv) && Fields(nv, n.path, map[], hole)
    requires nv.refcount == 0 && forall x :: x in nv.kids ==> x == null
    ensures AttachReady(st, k, c, st.views[k].(kids := st.views[k].kids[j := n]), n, nv, hole)
  {
    hide IsTree, Hung, RootOk, KidsOf;
    NothingBeyond(st, k, c, n.path);
    assert NodeOk(st, k, HoleIn(OpenAt(k, c), k), k in {});
  }

  lemma AttachTouched(st: State, k: Key, c: Byte, v: NodeView, n: Node, nv: NodeView, hole: Hole)
    requires AttachReady(st, k, c, v, n, nv, hole) && NodeOk(st, k, Hole(c), false)
    ensures Domain(Attached(st, k, c, v, n, nv))
    ensures NodeOk(Attached(st, k, c, v, n, nv), k, NoHole, false)
    ensures NodeOk(Attached(st, k, c, v, n, nv), n.path, hole, true)
  {
    hide Fields;
    KidsInMore(st.views[k].kids, st.nodes, n);
    assert c in Attached(st, k, c, v, n, nv).shape[k];
  }

  lemma AttachNodes(st: State, k: Key, c: Byte, v: NodeView, n: Node, nv: NodeView, hole: Hole)
    requires AttachReady(st, k, c, v, n, nv, hole) && NodesOk(st, OpenAt(k, c), {})
    ensures Domain(Attached(st, k, c, v, n, nv))
    ensures NodesOk(Attached(st, k, c, v, n, nv), OpenAfter(n.path, hole), {n.path})
  {
    hide Fields, NodeOk, KidsIn;
    var t := Attached(st, k, c, v, n, nv);
    AllKidsMore(st, OpenAt(k, c), {}, n);
    assert NodeOk(st, k, HoleIn(OpenAt(k, c), k), k in {});
    AttachTouched(st, k, c, v, n, nv, hole);
    Rewritten(st, OpenAt(k, c), {}, t, OpenAfter(n.path, hole), {n.path}, {k, n.path});
  }

  lemma AttachHung(st: State, k: Key, c: Byte, v: NodeView, n: Node, nv: NodeView, hole: Hole)
    requires AttachReady(st, k, c, v, n, nv, hole)
    requires Domain(Attached(st, k, c, v, n, nv)) && Hung(st)
    ensures Hung(Attached(st, k, c, v, n, nv))
  {
    hide Fields, NodeOk;
    var t := Attached(st, k, c, v, n, nv);
    forall m, d | m in t.shape && d in t.shape[m]
      ensures t.shape[m][d] in t.views && |t.views[t.shape[m][d]].prefix| + |m| + 1 == |t.shape[m][d]|
    {
      if m != n.path && !(m == k && d == c) { assert st.shape[m][d] in st.views; }
    }
  }

  lemma AttachRootOk(st: State, k: Key, c: Byte, v: NodeView, n: Node, nv: NodeView, hole: Hole)
    requires AttachReady(st, k, c, v, n, nv, hole) && RootOk(st, OpenAt(k, c))
    ensures Domain(Attached(st, k, c, v, n, nv)) && RootOk(Attached(st, k, c, v, n, nv), OpenAfter(n.path, hole))
  {
    hide Fields;
    RootedMore(st.shape, st.root.path, k, c, n.path);
  }

  lemma AttachSubs(st: State, k: Key, c: Byte, v: NodeView, n: Node, nv: NodeView, hole: Hole)
    requires AttachReady(st, k, c, v, n, nv, hole)
    ensures Subs(Attached(st, k, c, v, n, nv)) == Subs(st)
  {
    hide Fields, Subs;
    SameSubs(st, Attached(st, k, c, v, n, nv));
  }

  lemma Attach(st: State, k: Key, c: Byte, v: NodeView, n: Node, nv: NodeView, hole: Hole)
    requires Good(st, OpenAt(k, c), {}) && AttachReady(st, k, c, v, n, nv, hole)
    ensures Good(Attached(st, k, c, v, n, nv), OpenAfter(n.path, hole), {n.path})
    ensures Subs(Attached(st, k, c, v, n, nv)) == Subs(st)
  {
    hide Fields, IsTree, NodesOk, Hung, RootOk, Subs;
    AddLeaf(st.shape, k, c, n.path);
    AttachNodes(st, k, c, v, n, nv, hole);
    AttachHung(st, k, c, v, n, nv, hole);
    AttachRootOk(st, k, c, v, n, nv, hole);
    AttachSubs(st, k, c, v, n, nv, hole);
  }

  /** A node whose only branch is still open needs no exemption. */
  lemma StillOpen(st: State, k: Key, c: Byte)
    requires Good(st, OpenAt(k, c), {k})
    ensures Good(st, OpenAt(k, c), {})
  {
    hide Fields, IsTree, Hung, RootOk, KidsIn;
    forall m | m in st.nodes
      ensures NodeOk(st, m, HoleIn(OpenAt(k, c), m), m in {})
    {
      assert NodeOk(st, m, HoleIn(OpenAt(k, c), m), m in {k});
    }
  }

  /** What is free about an open place. */
  lemma NothingBeyond(st: State, k: Key, c: Byte, n: Key)
    requires Good(st, OpenAt(k, c), {}) && k in st.shape && Via(k, c, n)
    ensures c !in st.shape[k] && n !in st.nodes
  {
    hide Hung, RootOk, IsTree, NodeOk;
    NoEdgeInHole(st, k, c);
    AddLeaf(st.shape, k, c, n);
  }

  lemma RootedMore(s: Shape, r: Key, k: Key, c: Byte, n: Key)
    requires Rooted(s, r) && k in s && Via(k, c, n)
    ensures Rooted(s[k := s[k][c := n]][n := map[]], r)
  {
  }

  lemma NoEdgeInHole(st: State, k: Key, c: Byte)
    requires Domain(st) && NodesOk(st, OpenAt(k, c), {}) && k in st.nodes
    ensures c !in st.shape[k]
  {
    assert NodeOk(st, k, Hole(c), false);
  }

  // ---- a change inside one node -----------------------------------------------------

  ghost function Revised(st: State, k: Key, v: NodeView): State {
    st.(views := st.views[k := v])
  }

  ghost predicate ReviseReady(st: State, k: Key, v: NodeView, open: Open, pending: set<Key>, open': Open, pending': set<Key>) {
    && Domain(st) && k in st.nodes
    && Fields(v, k, st.shape[k], HoleIn(open', k)) && v.prefix == st.views[k].prefix
    && (forall x :: x in v.kids && x != null ==> x in st.views[k].kids)
    && (forall m :: m != k ==> HoleIn(open', m) == HoleIn(open, m) && (m in pending' <==> m in pending))
    && open' != OpenRoot && (open'.OpenAt? ==> open'.k == k)
    && (st.shape[k] == map[] && HoleIn(open', k).NoHole? && k !in pending' ==> v.refcount > 0)
  }

  lemma ReviseNodes(st: State, k: Key, v: NodeView, open: Open, pending: set<Key>, open': Open, pending': set<Key>)
    requires ReviseReady(st, k, v, open, pending, open', pending') && NodesOk(st, open, pending)
    ensures Domain(Revised(st, k, v)) && NodesOk(Revised(st, k, v), open', pending')
  {
    hide Fields;
    var t := Revised(st, k, v);
    assert NodeOk(st, k, HoleIn(open, k), k in pending);
    forall m | m in t.nodes
      ensures NodeOk(t, m, HoleIn(open', m), m in pending')
    {
      assert NodeOk(st, m, HoleIn(open, m), m in pending);
    }
  }

  /** Other subscribers, or the same children differently arranged. */
  lemma Revise(st: State, k: Key, v: NodeView, open: Open, pending: set<Key>, open': Open, pending': set<Key>)
    requires Good(st, open, pending) && ReviseReady(st, k, v, open, pending, open', pending')
    ensures Good(Revised(st, k, v), open', pending')
  {
    hide Fields, IsTree, Rooted, NodesOk, Hung;
    ReviseNodes(st, k, v, open, pending, open', pending');
    RevisedHung(st, k, v);
  }

  lemma RevisedSubs(st: State, k: Key, v: NodeView)
    requires k in st.views
    ensures Subs(Revised(st, k, v)) == if v.refcount > 0 then Subs(st)[k := Members(v.sockids)] else Subs(st) - {k}
  {
  }

  lemma RevisedHung(st: State, k: Key, v: NodeView)
    requires Domain(st) && Hung(st) && k in st.views && v.prefix == st.views[k].prefix
    ensures Hung(Revised(st, k, v))
  {
    var t := Revised(st, k, v);
    forall m, d | m in t.shape && d in t.shape[m]
      ensures t.shape[m][d] in t.views && |t.views[t.shape[m][d]].prefix| + |m| + 1 == |t.shape[m][d]|
    {
      assert st.shape[m][d] in st.views;
    }
  }

  // ---- a new node above an existing one -----------------------------------------------

  ghost predicate InsertReady(st: State, n: Key, chv: NodeView, p: Node, pv: NodeView) {
    && Domain(st) && n in st.nodes && p.path < n && p.path !in st.nodes && 0 !in p.path
    && |chv.prefix| + |p.path| + 1 == |n| && chv == st.views[n].(prefix := chv.prefix)
    && Fields(chv, n, st.shape[n], NoHole)
    && Fields(pv, p.path, map[n[|p.path|] := n], NoHole) && pv.refcount == 0
    && (forall x :: x in pv.kids ==> x == st.nodes[n])
  }

  ghost predicate InsertBelow(st: State, k: Key, c: Byte, v: NodeView, p: Node, pv: NodeView) {
    && Domain(st) && k in st.nodes && c in st.shape[k] && Via(k, c, p.path)
    && |pv.prefix| + |k| + 1 == |p.path|
    && SameLabel(v, st.views[k]) && Fields(v, k, st.shape[k][c := p.path], NoHole)
    && (forall x :: x in v.kids && x != null && x != p ==> x in st.views[k].kids)
  }

  ghost function Inserted(st: State, k: Key, c: Byte, v: NodeView, chv: NodeView, p: Node, pv: NodeView): State
    requires k in st.shape && c in st.shape[k] && p.path < st.shape[k][c]
  {
    var n := st.shape[k][c];
    State(st.root, st.nodes[p.path := p], st.views[k := v][n := chv][p.path := pv],
          st.shape[k := st.shape[k][c := p.path]][p.path := map[n[|p.path|] := n]])
  }

  /** The child array is all that counts for the children. */
  lemma KidsAlone(v: NodeView, w: NodeView, edges: Edges, hole: Hole)
    requires KidsOf(v, edges, hole)
    requires w == v.(prefix := w.prefix, refcount := w.refcount, sockids := w.sockids)
    ensures KidsOf(w, edges, hole)
  {
  }

  /** The edge that a child's slot stands for. */
  lemma SlotEdge(st: State, k: Key, j: nat, n: Node, pending: set<Key>) returns (c: Byte)
    requires Good(st, Closed, pending) && k in st.nodes && j < |st.views[k].kids| && st.views[k].kids[j] == n
    ensures c in st.shape[k] && st.shape[k][c] == n.path && n.path in st.nodes && st.nodes[n.path] == n
    ensures KidsOf(st.views[k], st.shape[k], NoHole)
    ensures st.views[k].typ == DENSE_TYPE ==> st.views[k].min as int + j < 256
    ensures st.views[k].typ != DENSE_TYPE ==> j < |st.views[k].sparse|
    ensures CharOf(st.views[k], j) == c
    ensures k != n.path && Via(k, c, n.path)
  {
    hide IsTree, Hung, RootOk, LabelOf;
    assert NodeOk(st, k, HoleIn(Closed, k), k in pending);
    var v := st.views[k];
    if v.typ == DENSE_TYPE {
      assert v.min as int + j <= v.max as int;
      assert SlotOk(v.kids[j], (v.min as int + j) as Byte, st.shape[k]);
    } else {
      assert SlotOk(v.kids[j], v.sparse[j], st.shape[k]);
    }
    c := CharOf(v, j);
    LongerEdge(st.shape, k, c);
  }

  lemma InsertBelowReady(st: State, k: Key, c: Byte, i: nat, n: Key, chv: NodeView, p: Node, pv: NodeView)
    requires Domain(st) && k in st.shape && c in st.shape[k] && st.shape[k][c] == n && n in st.views
    requires Good(st, Closed, {}) && |pv.prefix| < |st.views[n].prefix| && i < |st.views[k].kids|
    requires InsertReady(st, n, chv, p, pv) && chv.prefix == st.views[n].prefix[|pv.prefix| + 1..]
    requires KidsOf(st.views[k].(kids := st.views[k].kids[i := p]), st.shape[k][c := p.path], NoHole)
    ensures InsertBelow(st, k, c, st.views[k].(kids := st.views[k].kids[i := p]), p, pv)
    ensures k != n
  {
    hide IsTree, RootOk, KidsOf, Hung;
    LongerEdge(st.shape, k, c);
    HungAt(st, k, c);
    assert NodeOk(st, k, HoleIn(Closed, k), k in {});
    Comparable(k, p.path, n);
    assert p.path[|k|] == n[|k|];
  }

  /** No node sits inside another's prefix. */
  lemma InsidePrefix(st: State, n: Key, p: Key)
    requires Good(st, Closed, {}) && n in st.nodes && p < n && |p| + |st.views[n].prefix| >= |n|
    ensures p !in st.nodes
  {
    hide NodesOk;
    if p in st.nodes {
      SomeParent(st, n, p);
    }
  }

  lemma SomeParent(st: State, n: Key, p: Key)
    requires Good(st, Closed, {}) && n in st.nodes && p in st.nodes && p < n
    ensures |p| + |st.views[n].prefix| < |n|
    decreases |n| - |p|
  {
    hide NodesOk, RootOk;
    var c := n[|p|];
    assert RoutedAt(st.shape, p, n);
    var m := st.shape[p][c];
    HungAt(st, p, c);
    LongerEdge(st.shape, p, c);
    if m != n { SomeParent(st, n, m); }
  }

  /** The two halves of a split prefix. */
  lemma SplitReady(st: State, n: Key, pos: nat, chv: NodeView, p: Node, pv: NodeView)
    requires Good(st, Closed, {}) && n in st.nodes && pos < |st.views[n].prefix|
    requires p.path == n[..|n| - |st.views[n].prefix| + pos] && p.path !in st.nodes
    requires chv == st.views[n].(prefix := st.views[n].prefix[pos + 1..])
    requires Fields(pv, p.path, map[st.views[n].prefix[pos] := n], NoHole) && pv.refcount == 0
    requires forall x :: x in pv.kids ==> x == st.nodes[n]
    ensures InsertReady(st, n, chv, p, pv)
  {
    hide IsTree, Hung, RootOk, KidsOf;
    assert NodeOk(st, n, HoleIn(Closed, n), n in {});
    var e := |n| - |st.views[n].prefix|;
    KidsAlone(st.views[n], chv, st.shape[n], NoHole);
    assert |p.path| == e + pos && n[e + pos] == n[e..][pos];
    assert chv.prefix == n[|n| - |chv.prefix|..];
    assert forall x :: x in p.path ==> x in n;
  }

  lemma InsertTouched(st: State, k: Key, c: Byte, v: NodeView, chv: NodeView, p: Node, pv: NodeView)
    requires InsertBelow(st, k, c, v, p, pv) && InsertReady(st, st.shape[k][c], chv, p, pv)
    requires k != st.shape[k][c]
    requires NodeOk(st, k, NoHole, false) && NodeOk(st, st.shape[k][c], NoHole, false)
    ensures Domain(Inserted(st, k, c, v, chv, p, pv))
    ensures NodeOk(Inserted(st, k, c, v, chv, p, pv), k, NoHole, false)
    ensures NodeOk(Inserted(st, k, c, v, chv, p, pv), st.shape[k][c], NoHole, false)
    ensures NodeOk(Inserted(st, k, c, v, chv, p, pv), p.path, NoHole, false)
  {
    hide Fields, Via, SameLabel;
    var t := Inserted(st, k, c, v, chv, p, pv);
    var n := st.shape[k][c];
    KidsInMore(st.views[k].kids, st.nodes, p);
    KidsInMore(st.views[n].kids, st.nodes, p);
    assert c in t.shape[k] && n[|p.path|] in t.shape[p.path];
  }

  lemma InsertHung(st: State, k: Key, c: Byte, v: NodeView, chv: NodeView, p: Node, pv: NodeView)
    requires InsertBelow(st, k, c, v, p, pv) && InsertReady(st, st.shape[k][c], chv, p, pv)
    requires k != st.shape[k][c]
    requires IsTree(st.shape) && Hung(st)
    ensures Domain(Inserted(st, k, c, v, chv, p, pv)) && Hung(Inserted(st, k, c, v, chv, p, pv))
  {
    hide Fields, NodeOk, IsTree;
    var t := Inserted(st, k, c, v, chv, p, pv);
    var n := st.shape[k][c];
    forall m, d | m in t.shape && d in t.shape[m]
      ensures t.shape[m][d] in t.views && |t.views[t.shape[m][d]].prefix| + |m| + 1 == |t.shape[m][d]|
    {
      if m != p.path && !(m == k && d == c) {
        assert st.shape[m][d] in st.views;
        if st.shape[m][d] == n { OneParent(st.shape, m, d, k, c); }
      }
    }
  }

  lemma InsertNodes(st: State, k: Key, c: Byte, v: NodeView, chv: NodeView, p: Node, pv: NodeView)
    requires InsertBelow(st, k, c, v, p, pv) && InsertReady(st, st.shape[k][c], chv, p, pv)
    requires k != st.shape[k][c] && NodesOk(st, Closed, {})
    ensures Domain(Inserted(st, k, c, v, chv, p, pv)) && NodesOk(Inserted(st, k, c, v, chv, p, pv), Closed, {})
  {
    hide Fields, NodeOk, KidsIn, Via, SameLabel;
    var n := st.shape[k][c];
    assert NodeOk(st, k, HoleIn(Closed, k), k in {}) && NodeOk(st, n, HoleIn(Closed, n), n in {});
    InsertTouched(st, k, c, v, chv, p, pv);
    AllKidsMore(st, Closed, {}, p);
    Rewritten(st, Closed, {}, Inserted(st, k, c, v, chv, p, pv), Closed, {}, {k, n, p.path});
  }

  /** The prefix of a child is split: the first part and the branch go to a new node. */
  lemma Insert(st: State, k: Key, c: Byte, v: NodeView, chv: NodeView, p: Node, pv: NodeView)
    requires Good(st, Closed, {})
    requires InsertBelow(st, k, c, v, p, pv) && InsertReady(st, st.shape[k][c], chv, p, pv)
    ensures Good(Inserted(st, k, c, v, chv, p, pv), Closed, {})
    ensures Subs(Inserted(st, k, c, v, chv, p, pv)) == Subs(st)
  {
    hide Fields, IsTree, Hung, RootOk, NodesOk, Subs, Via, SameLabel;
    LongerEdge(st.shape, k, c);
    SplitEdge(st.shape, k, c, p.path);
    InsertNodes(st, k, c, v, chv, p, pv);
    InsertHung(st, k, c, v, chv, p, pv);
    InsertSubs(st, k, c, v, chv, p, pv);
    InsertRoot(st, k, c, v, chv, p, pv);
  }

  /** Step 2 below another node, all together. */
  lemma SplitDone(st: State, k: Key, c: Byte, i: nat, n: Key, pos: nat, v: NodeView, chv: NodeView, p: Node, pv: NodeView)
    requires Good(st, Closed, {}) && k in st.shape && c in st.shape[k] && st.shape[k][c] == n
    requires n in st.nodes && n in st.views && pos < |st.views[n].prefix| <= |n|
    requires p.path == n[..|n| - |st.views[n].prefix| + pos]
    requires chv == st.views[n].(prefix := st.views[n].prefix[pos + 1..])
    requires Fields(pv, p.path, map[st.views[n].prefix[pos] := n], NoHole) && pv.refcount == 0
    requires pv.kids == [st.nodes[n]] && |pv.prefix| == pos
    requires k in st.views && i < |st.views[k].kids|
    requires v == st.views[k].(kids := st.views[k].kids[i := p]) && KidsOf(v, st.shape[k][c := p.path], NoHole)
    ensures p.path !in st.nodes && p.path < n && k != n
    ensures Good(Inserted(st, k, c, v, chv, p, pv), Closed, {})
    ensures Subs(Inserted(st, k, c, v, chv, p, pv)) == Subs(st)
  {
    hide Fields, KidsOf, IsTree, Hung, RootOk, NodesOk, Subs, InsertReady, InsertBelow, Inserted;
    InsidePrefix(st, n, p.path);
    SplitReady(st, n, pos, chv, p, pv);
    InsertBelowReady(st, k, c, i, n, chv, p, pv);
    Insert(st, k, c, v, chv, p, pv);
  }

  lemma InsertSubs(st: State, k: Key, c: Byte, v: NodeView, chv: NodeView, p: Node, pv: NodeView)
    requires InsertBelow(st, k, c, v, p, pv) && InsertReady(st, st.shape[k][c], chv, p, pv)
    ensures Subs(Inserted(st, k, c, v, chv, p, pv)) == Subs(st)
  {
    hide Fields, Subs, Via;
    SameSubs(st, Inserted(st, k, c, v, chv, p, pv));
  }

  lemma InsertRoot(st: State, k: Key, c: Byte, v: NodeView, chv: NodeView, p: Node, pv: NodeView)
    requires InsertBelow(st, k, c, v, p, pv) && InsertReady(st, st.shape[k][c], chv, p, pv)
    requires RootOk(st, Closed) && Via(k, c, st.shape[k][c])
    ensures Domain(Inserted(st, k, c, v, chv, p, pv)) && RootOk(Inserted(st, k, c, v, chv, p, pv), Closed)
  {
    hide Fields;
    RootedSplit(st.shape, st.root.path, k, c, p.path);
  }

  lemma RootedSplit(s: Shape, r: Key, k: Key, c: Byte, p: Key)
    requires Rooted(s, r) && k in s && c in s[k] && Via(k, c, p) && p < s[k][c]
    ensures Rooted(s[k := s[k][c := p]][p := map[s[k][c][|p|] := s[k][c]]], r)
  {
  }

  ghost function InsertedTop(st: State, chv: NodeView, p: Node, pv: NodeView): State
    requires st.root != null && p.path < st.root.path
  {
    var r := st.root.path;
    State(p, st.nodes[p.path := p], st.views[r := chv][p.path := pv], st.shape[p.path := map[r[|p.path|] := r]])
  }

  lemma InsertTopTouched(st: State, chv: NodeView, p: Node, pv: NodeView)
    requires st.root != null && InsertReady(st, st.root.path, chv, p, pv)
    requires NodeOk(st, st.root.path, NoHole, false)
    ensures Domain(InsertedTop(st, chv, p, pv))
    ensures NodeOk(InsertedTop(st, chv, p, pv), st.root.path, NoHole, false)
    ensures NodeOk(InsertedTop(st, chv, p, pv), p.path, NoHole, false)
  {
    hide Fields;
    var r, t := st.root.path, InsertedTop(st, chv, p, pv);
    KidsInMore(st.views[r].kids, st.nodes, p);
    OnlyKid(pv.kids, r, t.nodes);
    assert r[|p.path|] in t.shape[p.path];
  }

  lemma InsertTopNodes(st: State, chv: NodeView, p: Node, pv: NodeView)
    requires st.root != null && InsertReady(st, st.root.path, chv, p, pv)
    requires NodesOk(st, Closed, {})
    ensures Domain(InsertedTop(st, chv, p, pv)) && NodesOk(InsertedTop(st, chv, p, pv), Closed, {})
  {
    hide Fields, KidsIn, NodeOk;
    var r := st.root.path;
    AllKidsMore(st, Closed, {}, p);
    assert NodeOk(st, r, HoleIn(Closed, r), r in {});
    InsertTopTouched(st, chv, p, pv);
    Rewritten(st, Closed, {}, InsertedTop(st, chv, p, pv), Closed, {}, {r, p.path});
  }

  lemma OnlyKid(kids: seq<Node?>, r: Key, nodes: map<Key, Node>)
    requires r in nodes && nodes[r].path == r && forall x :: x in kids ==> x == nodes[r]
    ensures KidsIn(kids, nodes)
  {
  }

  /** The same at the root. */
  lemma InsertTop(st: State, chv: NodeView, p: Node, pv: NodeView)
    requires Good(st, Closed, {}) && st.root != null && InsertReady(st, st.root.path, chv, p, pv)
    requires pv.prefix == p.path
    ensures Good(InsertedTop(st, chv, p, pv), Closed, {})
    ensures Subs(InsertedTop(st, chv, p, pv)) == Subs(st)
  {
    hide Fields, IsTree, NodesOk, Subs;
    var r, t := st.root.path, InsertedTop(st, chv, p, pv);
    SplitRoot(st.shape, r, p.path);
    InsertTopNodes(st, chv, p, pv);
    SameSubs(st, t);
    assert Hung(t) by {
      forall m, d | m in t.shape && d in t.shape[m]
        ensures t.shape[m][d] in t.views && |t.views[t.shape[m][d]].prefix| + |m| + 1 == |t.shape[m][d]|
      {
        if m != p.path {
          assert st.shape[m][d] in st.views;
          NotIntoRoot(st.shape, r, m, d);
        }
      }
    }
  }

  /** Step 2 at the root, all together. */
  lemma SplitTopDone(st: State, pos: nat, chv: NodeView, p: Node, pv: NodeView)
    requires Good(st, Closed, {}) && st.root != null
    requires st.root.path in st.views && pos < |st.views[st.root.path].prefix| == |st.root.path|
    requires p.path == st.root.path[..pos] && pv.prefix == p.path
    requires chv == st.views[st.root.path].(prefix := st.views[st.root.path].prefix[pos + 1..])
    requires Fields(pv, p.path, map[st.views[st.root.path].prefix[pos] := st.root.path], NoHole) && pv.refcount == 0
    requires pv.kids == [st.root]
    ensures p.path < st.root.path && p.path !in st.nodes
    ensures Good(InsertedTop(st, chv, p, pv), Closed, {})
    ensures Subs(InsertedTop(st, chv, p, pv)) == Subs(st)
  {
    hide Fields, KidsOf, IsTree, Hung, NodesOk, Subs, InsertReady, InsertedTop;
    InsidePrefix(st, st.root.path, p.path);
    SplitReady(st, st.root.path, pos, chv, p, pv);
    InsertTop(st, chv, p, pv);
  }

  lemma NotIntoRoot(s: Shape, r: Key, m: Key, d: Byte)
    requires IsTree(s) && Rooted(s, r) && m in s && d in s[m]
    ensures s[m][d] != r
  {
    assert r <= m;
  }

  // ---- a leaf removed -------------------------------------------------------------------

  ghost predicate CutReady(st: State, k: Key, c: Byte, v: NodeView) {
    && Domain(st) && k in st.nodes && c in st.shape[k] && st.shape[k][c] in st.nodes
    && k != st.shape[k][c] && st.shape[st.shape[k][c]] == map[] && st.views[st.shape[k][c]].refcount == 0
    && SameLabel(v, st.views[k]) && Fields(v, k, st.shape[k] - {c}, Hole(c))
    && (forall x :: x in v.kids && x != null ==> x in st.views[k].kids && x.path != st.shape[k][c])
  }

  ghost function Cut(st: State, k: Key, c: Byte, v: NodeView): State
    requires k in st.shape && c in st.shape[k]
  {
    var n := st.shape[k][c];
    State(st.root, st.nodes - {n}, (st.views - {n})[k := v], (st.shape - {n})[k := st.shape[k] - {c}])
  }

  lemma AllKidsLess(st: State, open: Open, pending: set<Key>, k: Key, c: Byte)
    requires Domain(st) && IsTree(st.shape) && NodesOk(st, open, pending)
    requires k in st.shape && c in st.shape[k]
    ensures forall m :: m in st.nodes && m != k ==> KidsIn(st.views[m].kids, st.nodes - {st.shape[k][c]})
  {
    hide Fields, IsTree;
    forall m | m in st.nodes && m != k
      ensures KidsIn(st.views[m].kids, st.nodes - {st.shape[k][c]})
    {
      assert NodeOk(st, m, HoleIn(open, m), m in pending);
      KidsInLess(st, m, HoleIn(open, m), m in pending, k, c);
    }
  }

  lemma CutNodes(st: State, k: Key, c: Byte, v: NodeView)
    requires CutReady(st, k, c, v) && IsTree(st.shape) && NodesOk(st, Closed, {st.shape[k][c]})
    ensures Domain(Cut(st, k, c, v)) && NodesOk(Cut(st, k, c, v), OpenAt(k, c), {})
  {
    hide Fields, IsTree, KidsIn, SameLabel;
    var n, t := st.shape[k][c], Cut(st, k, c, v);
    AllKidsLess(st, Closed, {n}, k, c);
    assert NodeOk(st, k, HoleIn(Closed, k), k in {n});
    assert KidsIn(v.kids, t.nodes) by { FewerKids(v.kids, st.views[k].kids, st.nodes, n); }
    Rewritten(st, Closed, {n}, t, OpenAt(k, c), {}, {k});
  }

  lemma FewerKids(kids: seq<Node?>, kids0: seq<Node?>, nodes: map<Key, Node>, n: Key)
    requires KidsIn(kids0, nodes) && forall x :: x in kids && x != null ==> x in kids0 && x.path != n
    ensures KidsIn(kids, nodes - {n})
  {
  }

  lemma CutHung(st: State, k: Key, c: Byte, v: NodeView)
    requires CutReady(st, k, c, v) && IsTree(st.shape) && Hung(st)
    ensures Domain(Cut(st, k, c, v)) && Hung(Cut(st, k, c, v))
  {
    hide Fields, IsTree, NodeOk;
    var t := Cut(st, k, c, v);
    forall m, d | m in t.shape && d in t.shape[m]
      ensures t.shape[m][d] in t.views && |t.views[t.shape[m][d]].prefix| + |m| + 1 == |t.shape[m][d]|
    {
      assert st.shape[m][d] in st.views;
      if st.shape[m][d] == st.shape[k][c] { OneParent(st.shape, m, d, k, c); }
    }
  }

  lemma CutRootOk(st: State, k: Key, c: Byte, v: NodeView)
    requires CutReady(st, k, c, v) && RootOk(st, Closed) && Via(k, c, st.shape[k][c])
    ensures Domain(Cut(st, k, c, v)) && RootOk(Cut(st, k, c, v), OpenAt(k, c))
  {
    hide Fields;
  }

  lemma CutSubs(st: State, k: Key, c: Byte, v: NodeView)
    requires CutReady(st, k, c, v)
    ensures Subs(Cut(st, k, c, v)) == Subs(st)
  {
    hide Fields, Subs;
    SameSubs(st, Cut(st, k, c, v));
  }

  /** A leaf without subscribers is freed and its slot set to NULL. */
  lemma CutOff(st: State, k: Key, c: Byte, v: NodeView)
    requires CutReady(st, k, c, v) && Good(st, Closed, {st.shape[k][c]})
    ensures Good(Cut(st, k, c, v), OpenAt(k, c), {})
    ensures Subs(Cut(st, k, c, v)) == Subs(st)
  {
    hide Fields, IsTree, Hung, RootOk, NodesOk, Subs, Via, SameLabel;
    LongerEdge(st.shape, k, c);
    CutLeaf(st.shape, k, c);
    CutNodes(st, k, c, v);
    CutHung(st, k, c, v);
    CutRootOk(st, k, c, v);
    CutSubs(st, k, c, v);
  }

  /** A leaf freed below another node, all together. */
  lemma CutDone(st: State, k: Key, c: Byte, i: nat, v: NodeView)
    requires k in st.shape && c in st.shape[k] && st.shape[k][c] in st.shape && st.shape[k][c] in st.views
    requires Good(st, Closed, {st.shape[k][c]})
    requires st.shape[st.shape[k][c]] == map[] && st.views[st.shape[k][c]].refcount == 0
    requires k in st.views && i < |st.views[k].kids| && v == st.views[k].(kids := st.views[k].kids[i := null])
    requires KidsOf(v, st.shape[k] - {c}, Hole(c))
    ensures CutReady(st, k, c, v)
    ensures Good(Cut(st, k, c, v), OpenAt(k, c), {})
    ensures Subs(Cut(st, k, c, v)) == Subs(st)
  {
    hide KidsOf, IsTree, Hung, RootOk, NodesOk, Subs, Cut;
    LongerEdge(st.shape, k, c);
    LeafGone(st, k, c, i, v);
    CutOff(st, k, c, v);
  }

  lemma LeafGone(st: State, k: Key, c: Byte, i: nat, v: NodeView)
    requires k in st.shape && c in st.shape[k] && Good(st, Closed, {st.shape[k][c]})
    requires k in st.views && i < |st.views[k].kids| && v == st.views[k].(kids := st.views[k].kids[i := null])
    requires KidsOf(v, st.shape[k] - {c}, Hole(c))
    ensures LabelOf(v, k)
    ensures forall x :: x in v.kids && x != null ==> x in st.views[k].kids && x.path != st.shape[k][c]
  {
    hide IsTree, Hung, RootOk, KidsOf;
    assert NodeOk(st, k, HoleIn(Closed, k), k in {st.shape[k][c]});
    forall x | x in v.kids && x != null
      ensures x in st.views[k].kids && x.path != st.shape[k][c]
    {
      KidEdge(v, st.shape[k] - {c}, Hole(c), x);
      var e :| e in st.shape[k] - {c} && (st.shape[k] - {c})[e] == x.path;
      if x.path == st.shape[k][c] { OneParent(st.shape, k, e, k, c); }
    }
  }

  lemma CutAbove(st: State, k: Key, c: Byte, i: nat, v: NodeView)
    requires CutReady(st, k, c, v) && |k| < |st.shape[k][c]|
    requires i < |st.views[k].kids| && v == st.views[k].(kids := st.views[k].kids[i := null])
    ensures Above(st, Cut(st, k, c, v), At(st.nodes[k], i), |k| + 1)
  {
    hide Fields, SameLabel;
  }

  /** A root without children or subscribers is all there is. */
  lemma CutTop(st: State)
    requires st.root != null && Good(st, Closed, {st.root.path})
    requires st.shape[st.root.path] == map[] && st.views[st.root.path].refcount == 0
    ensures Good(State(null, map[], map[], map[]), OpenRoot, {}) && Good(State(null, map[], map[], map[]), Closed, {})
    ensures Subs(State(null, map[], map[], map[])) == Subs(st)
  {
    hide NodeOk;
    var r := st.root.path;
    forall k | k in st.nodes
      ensures k == r
    {
      assert RoutedAt(st.shape, r, k);
    }
  }

  // ---- a node merged into its only child ------------------------------------------------

  ghost predicate SkipReady(st: State, n: Key, d: Byte, gv: NodeView) {
    && Domain(st) && n in st.nodes && st.shape[n].Keys == {d} && d in st.shape[n]
    && st.shape[n][d] in st.nodes && st.views[n].refcount == 0 && n != st.shape[n][d]
    && gv == st.views[st.shape[n][d]].(prefix := gv.prefix)
    && Fields(gv, st.shape[n][d], st.shape[st.shape[n][d]], NoHole)
  }

  ghost predicate SkipBelow(st: State, k: Key, c: Byte, d: Byte, v: NodeView, gv: NodeView) {
    && Domain(st) && k in st.nodes && c in st.shape[k] && k != st.shape[k][c]
    && SkipReady(st, st.shape[k][c], d, gv)
    && k != st.shape[st.shape[k][c]][d]
    && |gv.prefix| + |k| + 1 == |st.shape[st.shape[k][c]][d]|
    && SameLabel(v, st.views[k]) && Fields(v, k, st.shape[k][c := st.shape[st.shape[k][c]][d]], NoHole)
    && (forall x :: x in v.kids && x != null && x != st.nodes[st.shape[st.shape[k][c]][d]] ==>
          x in st.views[k].kids && x.path != st.shape[k][c])
  }

  lemma SingleEdge(v: NodeView, edges: Edges)
    requires KidsOf(v, edges, NoHole) && v.typ == 1
    ensures |v.sparse| == |v.kids| == 1 && v.kids[0] != null && v.sparse[0] in edges
    ensures edges[v.sparse[0]] == v.kids[0].path && edges.Keys == {v.sparse[0]}
  {
    var d := v.sparse[0];
    assert SlotOk(v.kids[0], d, edges);
    forall c | c in edges
      ensures c == d
    {
      assert c in v.sparse;
    }
  }

  /** The prefix of a node merged with its child's. */
  lemma MergedReady(st: State, n: Key, d: Byte, gv: NodeView)
    requires Good(st, Closed, {}) && n in st.shape && d in st.shape[n] && st.shape[n].Keys == {d}
    requires n in st.views && st.views[n].refcount == 0 && st.shape[n][d] in st.views
    requires gv == st.views[st.shape[n][d]].(prefix := st.views[n].prefix + [d] + st.views[st.shape[n][d]].prefix)
    requires |gv.prefix| <= PREFIX_MAX
    ensures SkipReady(st, n, d, gv)
    ensures |gv.prefix| == |st.views[n].prefix| + |st.shape[n][d]| - |n|
    ensures |gv.prefix| == |st.shape[n][d]| ==> gv.prefix == st.shape[n][d]
  {
    hide IsTree, Hung, RootOk, KidsOf;
    var g := st.shape[n][d];
    LongerEdge(st.shape, n, d);
    HungAt(st, n, d);
    assert NodeOk(st, n, HoleIn(Closed, n), n in {});
    assert NodeOk(st, g, HoleIn(Closed, g), g in {});
    KidsAlone(st.views[g], gv, st.shape[g], NoHole);
    MergedLabel(n, st.views[n].prefix, d, g, st.views[g].prefix);
  }

  lemma MergedLabel(n: Key, np: Key, d: Byte, g: Key, gp: Key)
    requires Via(n, d, g) && |gp| + |n| + 1 == |g| && |np| <= |n|
    requires np == n[|n| - |np|..] && gp == g[|g| - |gp|..]
    ensures np + [d] + gp == g[|g| - |np + [d] + gp|..]
  {
    var e := |n| - |np|;
    assert g[e..] == g[e..|n|] + [g[|n|]] + g[|n| + 1..];
    assert g[e..|n|] == n[e..];
  }

  ghost function Skipped(st: State, k: Key, c: Byte, d: Byte, v: NodeView, gv: NodeView): State
    requires SkipBelow(st, k, c, d, v, gv)
  {
    var n := st.shape[k][c];
    var g := st.shape[n][d];
    State(st.root, st.nodes - {n}, (st.views - {n})[k := v][g := gv], (st.shape - {n})[k := st.shape[k][c := g]])
  }

  lemma SkipKids(st: State, k: Key, c: Byte, d: Byte, v: NodeView, gv: NodeView)
    requires SkipBelow(st, k, c, d, v, gv) && NodeOk(st, k, NoHole, false)
    requires NodeOk(st, st.shape[st.shape[k][c]][d], NoHole, false)
    ensures KidsIn(v.kids, st.nodes - {st.shape[k][c]})
  {
    hide Fields;
  }

  lemma SkipTouched(st: State, k: Key, c: Byte, d: Byte, v: NodeView, gv: NodeView)
    requires SkipBelow(st, k, c, d, v, gv) && NodeOk(st, k, NoHole, false)
    requires NodeOk(st, st.shape[st.shape[k][c]][d], NoHole, false)
    requires KidsIn(st.views[st.shape[st.shape[k][c]][d]].kids, st.nodes - {st.shape[k][c]})
    ensures Domain(Skipped(st, k, c, d, v, gv))
    ensures NodeOk(Skipped(st, k, c, d, v, gv), k, NoHole, false)
    ensures NodeOk(Skipped(st, k, c, d, v, gv), st.shape[st.shape[k][c]][d], NoHole, false)
  {
    hide Fields, SameLabel;
    SkipKids(st, k, c, d, v, gv);
    assert c in Skipped(st, k, c, d, v, gv).shape[k];
  }

  lemma SkipNodes(st: State, k: Key, c: Byte, d: Byte, v: NodeView, gv: NodeView)
    requires SkipBelow(st, k, c, d, v, gv) && IsTree(st.shape) && NodesOk(st, Closed, {})
    ensures Domain(Skipped(st, k, c, d, v, gv)) && NodesOk(Skipped(st, k, c, d, v, gv), Closed, {})
  {
    hide Fields, IsTree, KidsIn, SameLabel, NodeOk;
    var n := st.shape[k][c];
    var g, t := st.shape[n][d], Skipped(st, k, c, d, v, gv);
    AllKidsLess(st, Closed, {}, k, c);
    assert NodeOk(st, k, HoleIn(Closed, k), k in {});
    assert NodeOk(st, g, HoleIn(Closed, g), g in {});
    SkipTouched(st, k, c, d, v, gv);
    Rewritten(st, Closed, {}, t, Closed, {}, {k, g});
  }

  lemma SkipHung(st: State, k: Key, c: Byte, d: Byte, v: NodeView, gv: NodeView)
    requires SkipBelow(st, k, c, d, v, gv) && IsTree(st.shape) && Hung(st)
    ensures Domain(Skipped(st, k, c, d, v, gv)) && Hung(Skipped(st, k, c, d, v, gv))
  {
    hide Fields, IsTree, NodeOk;
    var n := st.shape[k][c];
    var g, t := st.shape[n][d], Skipped(st, k, c, d, v, gv);
    forall m, e | m in t.shape && e in t.shape[m]
      ensures t.shape[m][e] in t.views && |t.views[t.shape[m][e]].prefix| + |m| + 1 == |t.shape[m][e]|
    {
      if !(m == k && e == c) {
        assert st.shape[m][e] in st.views;
        if st.shape[m][e] == n { OneParent(st.shape, m, e, k, c); }
        if st.shape[m][e] == g { OneParent(st.shape, m, e, n, d); }
      }
    }
  }

  lemma SkipRootOk(st: State, k: Key, c: Byte, d: Byte, v: NodeView, gv: NodeView)
    requires SkipBelow(st, k, c, d, v, gv) && RootOk(st, Closed)
    requires Via(k, c, st.shape[k][c]) && Via(st.shape[k][c], d, st.shape[st.shape[k][c]][d])
    ensures Domain(Skipped(st, k, c, d, v, gv)) && RootOk(Skipped(st, k, c, d, v, gv), Closed)
  {
    hide Fields;
  }

  lemma SkipSubs(st: State, k: Key, c: Byte, d: Byte, v: NodeView, gv: NodeView)
    requires SkipBelow(st, k, c, d, v, gv)
    ensures Subs(Skipped(st, k, c, d, v, gv)) == Subs(st)
  {
    hide Fields, Subs;
    SameSubs(st, Skipped(st, k, c, d, v, gv));
  }

  /** nn_node_compact of a node below another. */
  lemma Skip(st: State, k: Key, c: Byte, d: Byte, v: NodeView, gv: NodeView)
    requires SkipBelow(st, k, c, d, v, gv) && Good(st, Closed, {})
    ensures Good(Skipped(st, k, c, d, v, gv), Closed, {})
    ensures Subs(Skipped(st, k, c, d, v, gv)) == Subs(st)
  {
    hide Fields, IsTree, Hung, RootOk, NodesOk, Subs, Via, SameLabel;
    LongerEdge(st.shape, k, c);
    LongerEdge(st.shape, st.shape[k][c], d);
    Bypass(st.shape, k, c, d);
    SkipNodes(st, k, c, d, v, gv);
    SkipHung(st, k, c, d, v, gv);
    SkipRootOk(st, k, c, d, v, gv);
    SkipSubs(st, k, c, d, v, gv);
  }

  /** nn_node_compact below another node, all together. */
  lemma SkipDone(st: State, k: Key, c: Byte, i: nat, d: Byte, v: NodeView, gv: NodeView, ch: Node)
    requires Good(st, Closed, {}) && k in st.shape && c in st.shape[k] && st.shape[k][c] in st.shape
    requires var n := st.shape[k][c];
      && n in st.views && d in st.shape[n] && st.shape[n].Keys == {d} && st.views[n].refcount == 0
      && st.shape[n][d] == ch.path && ch.path in st.views && ch.path in st.nodes && st.nodes[ch.path] == ch
      && gv == st.views[ch.path].(prefix := st.views[n].prefix + [d] + st.views[ch.path].prefix)
    requires |gv.prefix| <= PREFIX_MAX && k in st.views && i < |st.views[k].kids|
    requires v == st.views[k].(kids := st.views[k].kids[i := ch]) && KidsOf(v, st.shape[k][c := ch.path], NoHole)
    ensures SkipBelow(st, k, c, d, v, gv)
    ensures Good(Skipped(st, k, c, d, v, gv), Closed, {})
    ensures Subs(Skipped(st, k, c, d, v, gv)) == Subs(st)
  {
    hide KidsOf, IsTree, Hung, RootOk, NodesOk, Subs, Skipped;
    var n := st.shape[k][c];
    MergedReady(st, n, d, gv);
    LongerEdge(st.shape, k, c);
    LongerEdge(st.shape, n, d);
    HungAt(st, k, c);
    SlotGone(st, k, c, i, d, v, ch);
    Skip(st, k, c, d, v, gv);
  }

  lemma SlotGone(st: State, k: Key, c: Byte, i: nat, d: Byte, v: NodeView, ch: Node)
    requires Good(st, Closed, {}) && k in st.shape && c in st.shape[k] && st.shape[k][c] in st.shape
    requires k in st.views && i < |st.views[k].kids|
    requires v == st.views[k].(kids := st.views[k].kids[i := ch]) && KidsOf(v, st.shape[k][c := ch.path], NoHole)
    requires ch.path != st.shape[k][c]
    ensures LabelOf(v, k)
    ensures forall x :: x in v.kids && x != null && x != ch ==> x in st.views[k].kids && x.path != st.shape[k][c]
  {
    hide IsTree, Hung, RootOk, KidsOf;
    assert NodeOk(st, k, HoleIn(Closed, k), k in {});
    forall x | x in v.kids && x != null && x != ch
      ensures x in st.views[k].kids && x.path != st.shape[k][c]
    {
      KidEdge(v, st.shape[k][c := ch.path], NoHole, x);
      var e :| e in st.shape[k][c := ch.path] && st.shape[k][c := ch.path][e] == x.path;
      if x.path == st.shape[k][c] { OneParent(st.shape, k, e, k, c); }
    }
  }

  ghost function SkippedTop(st: State, d: Byte, gv: NodeView): State
    requires st.root != null && SkipReady(st, st.root.path, d, gv)
  {
    var r := st.root.path;
    var g := st.shape[r][d];
    State(st.nodes[g], st.nodes - {r}, (st.views - {r})[g := gv], st.shape - {r})
  }

  lemma SkipTopNodes(st: State, d: Byte, gv: NodeView)
    requires st.root != null && SkipReady(st, st.root.path, d, gv)
    requires IsTree(st.shape) && NodesOk(st, Closed, {}) && Rooted(st.shape, st.root.path)
    ensures Domain(SkippedTop(st, d, gv)) && NodesOk(SkippedTop(st, d, gv), Closed, {})
  {
    hide Fields, IsTree, KidsIn, Rooted;
    var r := st.root.path;
    var g, t := st.shape[r][d], SkippedTop(st, d, gv);
    forall m | m in st.nodes
      ensures KidsIn(st.views[m].kids, t.nodes)
    {
      assert NodeOk(st, m, HoleIn(Closed, m), m in {});
      KidsNotRoot(st, m);
    }
    assert NodeOk(st, g, HoleIn(Closed, g), g in {});
    Rewritten(st, Closed, {}, t, Closed, {}, {g});
  }

  lemma KidsNotRoot(st: State, m: Key)
    requires st.root != null && Domain(st) && IsTree(st.shape) && Rooted(st.shape, st.root.path)
    requires m in st.nodes && NodeOk(st, m, NoHole, false)
    ensures KidsIn(st.views[m].kids, st.nodes - {st.root.path})
  {
    var r := st.root.path;
    forall x | x in st.views[m].kids && x != null
      ensures x.path != r
    {
      KidEdge(st.views[m], st.shape[m], NoHole, x);
      var d :| d in st.shape[m] && st.shape[m][d] == x.path;
      NotIntoRoot(st.shape, r, m, d);
    }
  }

  lemma SkipTopHung(st: State, d: Byte, gv: NodeView)
    requires st.root != null && SkipReady(st, st.root.path, d, gv)
    requires IsTree(st.shape) && Hung(st) && Rooted(st.shape, st.root.path)
    ensures Domain(SkippedTop(st, d, gv)) && Hung(SkippedTop(st, d, gv))
  {
    hide Fields, IsTree, Rooted, NodeOk;
    var r := st.root.path;
    var g, t := st.shape[r][d], SkippedTop(st, d, gv);
    forall m, e | m in t.shape && e in t.shape[m]
      ensures t.shape[m][e] in t.views && |t.views[t.shape[m][e]].prefix| + |m| + 1 == |t.shape[m][e]|
    {
      assert st.shape[m][e] in st.views;
      NotIntoRoot(st.shape, r, m, e);
      if st.shape[m][e] == g { OneParent(st.shape, m, e, r, d); }
    }
  }

  /** nn_node_compact of the root. */
  lemma SkipTop(st: State, d: Byte, gv: NodeView)
    requires st.root != null && SkipReady(st, st.root.path, d, gv)
    requires Good(st, Closed, {}) && gv.prefix == st.shape[st.root.path][d]
    ensures Good(SkippedTop(st, d, gv), Closed, {})
    ensures Subs(SkippedTop(st, d, gv)) == Subs(st)
  {
    hide Fields, IsTree, Hung, NodesOk, Subs, Rooted;
    var r := st.root.path;
    BypassRoot(st.shape, r, d);
    SkipTopNodes(st, d, gv);
    SkipTopHung(st, d, gv);
    SameSubs(st, SkippedTop(st, d, gv));
    NamedNode(st, st.shape[r][d]);
  }

  lemma NamedNode(st: State, k: Key)
    requires Domain(st) && NodesOk(st, Closed, {}) && k in st.nodes
    ensures st.nodes[k].path == k
  {
    assert NodeOk(st, k, HoleIn(Closed, k), k in {});
  }

  // ---- what a chain of rewritings leaves alone ------------------------------------------

  /** A `struct nn_trie_node **`: the root pointer or one slot of a child array. */
  datatype Slot = AtRoot | At(parent: Node, j: nat)

  /** The node for k is still there with the same fields, except that the one slot may hold
  something else. */
  ghost predicate Same(st: State, t: State, slot: Slot, k: Key)
    requires k in st.nodes && k in st.views
  {
    && k in t.nodes && k in t.views && t.nodes[k] == st.nodes[k]
    && |t.views[k].kids| == |st.views[k].kids| && t.views[k] == st.views[k].(kids := t.views[k].kids)
    && forall x :: 0 <= x < |t.views[k].kids| && slot != At(st.nodes[k], x) ==> t.views[k].kids[x] == st.views[k].kids[x]
  }

  ghost predicate Above(st: State, t: State, slot: Slot, off: nat) {
    && (slot.At? ==> t.root == st.root)
    && forall k :: k in st.nodes && k in st.views && |k| < off ==> Same(st, t, slot, k)
  }

  lemma SameTrans(s0: State, s1: State, s2: State, inner: Slot, slot: Slot, k: Key)
    requires k in s0.nodes && k in s0.views && Same(s0, s1, inner, k) && Same(s1, s2, slot, k)
    requires inner.At? ==> inner.parent != s0.nodes[k]
    ensures Same(s0, s2, slot, k)
  {
    forall x | 0 <= x < |s2.views[k].kids| && slot != At(s0.nodes[k], x)
      ensures s2.views[k].kids[x] == s0.views[k].kids[x]
    {
      assert inner != At(s0.nodes[k], x);
    }
  }

  lemma AboveTrans(s0: State, s1: State, s2: State, inner: Slot, slot: Slot, off: nat, off1: nat)
    requires Above(s0, s1, inner, off1) && Above(s1, s2, slot, off) && off <= off1
    requires (inner.At? ==> |inner.parent.path| >= off) && (slot.At? ==> s1.root == s0.root)
    requires forall k :: k in s0.nodes ==> s0.nodes[k].path == k
    ensures Above(s0, s2, slot, off)
  {
    hide Same;
    forall k | k in s0.nodes && k in s0.views && |k| < off
      ensures Same(s0, s2, slot, k)
    {
      assert Same(s0, s1, inner, k);
      SameThere(s0, s1, inner, k);
      SameTrans(s0, s1, s2, inner, slot, k);
    }
  }

  lemma SameThere(s0: State, s1: State, inner: Slot, k: Key)
    requires k in s0.nodes && k in s0.views && Same(s0, s1, inner, k)
    ensures k in s1.nodes && k in s1.views
  {
  }

  lemma RevisedAbove(st: State, k: Key, v: NodeView, off: nat)
    requires Domain(st) && |k| >= off
    ensures Above(st, Revised(st, k, v), AtRoot, off)
  {
  }

  lemma NothingAbove(st: State, t: State, slot: Slot)
    requires slot == AtRoot
    ensures Above(st, t, slot, 0)
  {
  }

  /** Below every node there is a subscription. */
  lemma SomeSubBelow(st: State, k: Key) returns (m: Key)
    requires Good(st, Closed, {}) && k in st.nodes
    ensures m in Subs(st) && k <= m
    decreases set x | x in st.nodes && |x| >= |k|
  {
    hide Hung, RootOk, IsTree, Fields, KidsIn;
    assert NodeOk(st, k, HoleIn(Closed, k), k in {});
    if st.shape[k] == map[] {
      m := k;
    } else {
      var c :| c in st.shape[k];
      var g := st.shape[k][c];
      LongerEdge(st.shape, k, c);
      LongEdge(k, c, g);
      assert g in st.nodes;
      ghost var at, below := set x | x in st.nodes && |x| >= |k|, set x | x in st.nodes && |x| >= |g|;
      assert below <= at && k in at && k !in below;
      m := SomeSubBelow(st, g);
    }
  }

  lemma LongEdge(k: Key, c: Byte, g: Key)
    requires Via(k, c, g)
    ensures |g| > |k| && k <= g
  {
  }

  /** Node by node the same, but for prefixes and children. */
  ghost predicate Lighter(st: State, t: State) {
    && t.nodes.Values <= st.nodes.Values
    && forall k :: k in t.nodes && k in t.views && k in t.shape ==>
      && k in st.nodes && k in st.views && k in st.shape && t.nodes[k] == st.nodes[k]
      && t.shape[k].Keys == st.shape[k].Keys
      && t.views[k] == st.views[k].(prefix := t.views[k].prefix, kids := t.views[k].kids)
  }

  /** nn_node_compact of the root, all together. */
  lemma SkipTopDone(st: State, d: Byte, gv: NodeView, ch: Node)
    requires Good(st, Closed, {}) && st.root != null && st.root.path in st.shape && st.root.path in st.views
    requires d in st.shape[st.root.path] && st.shape[st.root.path].Keys == {d} && st.views[st.root.path].refcount == 0
    requires st.shape[st.root.path][d] == ch.path && ch.path in st.views && ch.path in st.nodes && st.nodes[ch.path] == ch
    requires gv == st.views[ch.path].(prefix := st.views[st.root.path].prefix + [d] + st.views[ch.path].prefix)
    requires |gv.prefix| <= PREFIX_MAX
    ensures SkipReady(st, st.root.path, d, gv)
    ensures Good(SkippedTop(st, d, gv), Closed, {})
    ensures Subs(SkippedTop(st, d, gv)) == Subs(st)
  {
    hide KidsOf, IsTree, Hung, NodesOk, Subs, SkippedTop, Rooted, Fields;
    MergedReady(st, st.root.path, d, gv);
    SkipTop(st, d, gv);
  }

  lemma SkippedLighter(st: State, k: Key, c: Byte, d: Byte, v: NodeView, gv: NodeView, i: nat, ch: Node)
    requires SkipBelow(st, k, c, d, v, gv)
    requires i < |st.views[k].kids| && v == st.views[k].(kids := st.views[k].kids[i := ch])
    ensures Lighter(st, Skipped(st, k, c, d, v, gv))
  {
    hide Fields, SameLabel;
    FewerValues(st.nodes, st.shape[k][c]);
    assert st.shape[k][c := st.shape[st.shape[k][c]][d]].Keys == st.shape[k].Keys;
  }

  lemma SkippedAbove(st: State, k: Key, c: Byte, d: Byte, v: NodeView, gv: NodeView, i: nat, ch: Node)
    requires SkipBelow(st, k, c, d, v, gv)
    requires i < |st.views[k].kids| && v == st.views[k].(kids := st.views[k].kids[i := ch])
    requires |k| < |st.shape[k][c]| < |st.shape[st.shape[k][c]][d]|
    ensures Above(st, Skipped(st, k, c, d, v, gv), At(st.nodes[k], i), |k| + 1)
  {
    hide Fields, SameLabel;
  }

  lemma FewerValues(nodes: map<Key, Node>, n: Key)
    ensures (nodes - {n}).Values <= nodes.Values
  {
    var less := nodes - {n};
    forall x | x in less.Values
      ensures x in nodes.Values
    {
      var k :| k in less && less[k] == x;
      assert k in nodes && nodes[k] == x;
    }
  }

  lemma SkippedTopLighter(st: State, d: Byte, gv: NodeView)
    requires st.root != null && SkipReady(st, st.root.path, d, gv)
    ensures Lighter(st, SkippedTop(st, d, gv))
  {
    hide Fields;
    FewerValues(st.nodes, st.root.path);
  }

  // ---- what an unsubscription drops besides ---------------------------------------------

  /** Through k's branch for data the table has nothing but one subscription to data. */
  ghost predicate Alone(t: Table, k: Key, data: Key, s: SockId)
    requires k < data
  {
    forall m :: m in t && Via(k, data[|k|], m) ==> m == data && t[m] == {s}
  }

  /** The nodes that lose their own subscription when s leaves data: as written, a dense array
  that falls to eight children is converted, and with it the node's references are dropped. */
  ghost function Dropping(st: State, carry: bool, data: Key, s: SockId): set<Key> {
    set k | k in st.nodes && k in st.views && !carry && k < data
            && st.views[k].typ == DENSE_TYPE && st.views[k].nbr == SPARSE_MAX + 1 && Alone(Subs(st), k, data, s)
  }

  ghost function From(d: set<Key>, off: nat): set<Key> {
    set k | k in d && |k| >= off
  }

  lemma KeptNotDropping(st0: State, t1: Table, carry: bool, k: Key, data: Key, s: SockId, lost: set<Key>, m: Key)
    requires k < data && data in Subs(st0) && t1 == Removed(Subs(st0), data, s) - lost
    requires m in t1 && Via(k, data[|k|], m)
    ensures k !in Dropping(st0, carry, data, s)
  {
    hide Subs;
  }

  lemma GoneAlone(t0: Table, k: Key, data: Key, s: SockId)
    requires k < data && data in t0 && s in t0[data]
    requires forall m :: m in Removed(t0, data, s) ==> !Via(k, data[|k|], m)
    ensures Alone(t0, k, data, s)
  {
    forall m | m in t0 && Via(k, data[|k|], m)
      ensures m == data && t0[m] == {s}
    {
      assert m !in Removed(t0, data, s);
      assert t0[data] == (t0[data] - {s}) + {s};
    }
  }

  lemma LevelSet(st0: State, carry: bool, k: Key, data: Key, s: SockId, off: nat)
    requires k <= data && off <= |k|
    requires forall m :: m in st0.nodes && m <= data && |m| >= off ==> k <= m
    ensures From(Dropping(st0, carry, data, s), off) ==
      From(Dropping(st0, carry, data, s), |k| + 1) + (if k in Dropping(st0, carry, data, s) then {k} else {})
  {
    hide Subs, Alone;
    forall m | m in From(Dropping(st0, carry, data, s), off) && |m| < |k| + 1
      ensures m == k
    {
      assert m in st0.nodes;
    }
  }
}
