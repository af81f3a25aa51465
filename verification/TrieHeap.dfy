/** The patricia trie of subscriptions (src/lib/trie.c): the operations on the heap. */
module TrieHeap {
  import opened TrieShape
  import opened TrieNode
  import opened TrieState

  /** The node objects, but those excepted, hold what the state says. */
  ghost predicate Holds(st: State, except: set<Node>)
    reads st.nodes.Values
  {
    && st.nodes.Keys == st.views.Keys
    && forall k :: k in st.nodes && st.nodes[k] !in except ==> st.nodes[k].View() == st.views[k]
  }

  lemma HoldsAttached(st: State, k: Key, c: Byte, v: NodeView, n: Node)
    requires Domain(st) && k in st.nodes && n.path !in st.nodes && (forall m :: m in st.nodes ==> st.nodes[m].path == m)
    requires Holds(st, {st.nodes[k]}) && st.nodes[k].View() == v
    ensures Holds(Attached(st, k, c, v, n, n.View()), {})
    ensures var t := Attached(st, k, c, v, n, n.View());
      && t.root == st.root && t.nodes == st.nodes[n.path := n] && n.path in t.views && t.views[n.path] == n.View()
      && n.path in t.shape && t.shape[n.path] == map[]
  {
  }

  lemma HoldsInsertedTop(st: State, chv: NodeView, p: Node, pv: NodeView)
    requires Domain(st) && st.root != null && st.root.path in st.nodes && p.path < st.root.path
    requires p.path !in st.nodes && (forall m :: m in st.nodes ==> st.nodes[m].path == m)
    requires Holds(st, {st.nodes[st.root.path]})
    requires st.nodes[st.root.path].View() == chv && p.View() == pv
    ensures var t := InsertedTop(st, chv, p, pv);
      && Holds(t, {}) && t.root == p && t.nodes == st.nodes[p.path := p] && t.nodes.Keys == t.views.Keys == t.shape.Keys
  {
  }

  lemma HoldsSkipped(st: State, k: Key, c: Byte, d: Byte, v: NodeView, gv: NodeView)
    requires SkipBelow(st, k, c, d, v, gv) && (forall m :: m in st.nodes ==> st.nodes[m].path == m)
    requires Holds(st, {st.nodes[k], st.nodes[st.shape[st.shape[k][c]][d]]})
    requires st.nodes[k].View() == v && st.nodes[st.shape[st.shape[k][c]][d]].View() == gv
    ensures var t := Skipped(st, k, c, d, v, gv);
      && Holds(t, {}) && t.root == st.root && t.nodes == st.nodes - {st.shape[k][c]}
      && t.nodes.Keys == t.views.Keys == t.shape.Keys
  {
    hide Fields, SameLabel, Holds;
    var g := st.shape[st.shape[k][c]][d];
    KeysOf(st, {st.nodes[k], st.nodes[g]});
    var t := Skipped(st, k, c, d, v, gv);
    assert t.nodes.Keys == t.views.Keys == t.shape.Keys;
    HoldsAfter(st, t, {st.nodes[k], st.nodes[g]});
  }

  lemma HoldsInserted(st: State, k: Key, c: Byte, v: NodeView, chv: NodeView, p: Node, pv: NodeView)
    requires Domain(st) && k in st.nodes && c in st.shape[k] && st.shape[k][c] in st.nodes && p.path < st.shape[k][c]
    requires p.path !in st.nodes && k != st.shape[k][c] && (forall m :: m in st.nodes ==> st.nodes[m].path == m)
    requires Holds(st, {st.nodes[k], st.nodes[st.shape[k][c]]})
    requires st.nodes[k].View() == v && st.nodes[st.shape[k][c]].View() == chv && p.View() == pv
    ensures var t := Inserted(st, k, c, v, chv, p, pv);
      && Holds(t, {})
      && t.root == st.root && t.nodes == st.nodes[p.path := p] && t.nodes.Keys == t.views.Keys == t.shape.Keys
  {
  }

  lemma Blank(v: NodeView, path: Key)
    requires v.refcount == 0 && v.sockids == [] && v.typ == 0 && v.sparse == [] && v.kids == []
    requires |v.prefix| <= PREFIX_MAX && |v.prefix| <= |path| && v.prefix == path[|path| - |v.prefix|..]
    ensures Fields(v, path, map[], NoHole)
  {
  }

  lemma EmptyTrie(st: State, open: Open)
    requires Good(st, open, {}) && st.root == null
    ensures Subs(st) == map[] && st.nodes == map[] && st.shape == map[]
  {
    hide Fields, IsTree, Hung, NodesOk;
  }

  lemma HoldsSkippedTop(st: State, d: Byte, gv: NodeView)
    requires st.root != null && SkipReady(st, st.root.path, d, gv) && (forall m :: m in st.nodes ==> st.nodes[m].path == m)
    requires Holds(st, {st.nodes[st.shape[st.root.path][d]]})
    requires st.nodes[st.shape[st.root.path][d]].View() == gv
    ensures var t := SkippedTop(st, d, gv);
      && Holds(t, {}) && t.root == st.nodes[st.shape[st.root.path][d]] && t.nodes == st.nodes - {st.root.path}
      && t.nodes.Keys == t.views.Keys == t.shape.Keys
  {
    hide Fields;
  }

  lemma HoldsRevised(st: State, n: Node)
    requires n.path in st.nodes && st.nodes[n.path] == n && (forall m :: m in st.nodes ==> st.nodes[m].path == m)
    requires Holds(st, {n})
    ensures Holds(Revised(st, n.path, n.View()), {})
  {
  }

  /** A state whose views differ only for objects that were excepted, and now are right. */
  lemma HoldsAfter(st: State, t: State, except: set<Node>)
    requires Holds(st, except) && t.nodes.Keys == t.views.Keys
    requires forall m :: m in t.nodes ==> m in st.nodes && m in st.views && t.nodes[m] == st.nodes[m]
    requires forall m :: m in t.nodes && t.nodes[m] in except ==> t.nodes[m].View() == t.views[m]
    requires forall m :: m in t.nodes && t.nodes[m] !in except ==> t.views[m] == st.views[m]
    ensures Holds(t, {})
  {
  }

  lemma KeysOf(st: State, except: set<Node>)
    requires Holds(st, except)
    ensures st.nodes.Keys == st.views.Keys
  {
  }

  lemma HoldsCut(st: State, k: Key, c: Byte, v: NodeView)
    requires CutReady(st, k, c, v) && (forall m :: m in st.nodes ==> st.nodes[m].path == m)
    requires Holds(st, {st.nodes[k]}) && st.nodes[k].View() == v
    ensures var t := Cut(st, k, c, v);
      && Holds(t, {}) && t.root == st.root && t.nodes == st.nodes - {st.shape[k][c]}
      && t.nodes.Keys == t.views.Keys == t.shape.Keys && t.shape[k] == st.shape[k] - {c}
  {
    hide Fields, SameLabel, Holds;
    KeysOf(st, {st.nodes[k]});
    var t := Cut(st, k, c, v);
    assert t.nodes.Keys == t.views.Keys == t.shape.Keys;
    HoldsAfter(st, t, {st.nodes[k]});
  }

  const EINVAL := 22

  class Trie {
    /** Whether the two array conversions keep the node's reference count and subscribers.
    false is the code as written, which drops them (src/lib/trie.c:464-465, 752); true is
    what the structure's documentation asks for (include/trie.h:57-71). */
    const carry: bool
    var root: Node?
    ghost var st: State

    constructor (carry: bool)
      ensures this.carry == carry && Valid() && Contents() == map[] && st.nodes == map[]
    {
      this.carry, root, st := carry, null, State(null, map[], map[], map[]);
    }

    /** The objects hold what the state says. */
    ghost predicate Mirror()
      reads this, st.nodes.Values
    {
      root == st.root && Holds(st, {})
    }

    ghost predicate Inv(open: Open, pending: set<Key>)
      reads this, st.nodes.Values
    {
      Good(st, open, pending) && Mirror()
    }

    ghost predicate Valid()
      reads this, st.nodes.Values
    {
      Inv(Closed, {})
    }

    /** The subscriptions the trie stands for. */
    ghost function Contents(): Table
      reads this
    {
      Subs(st)
    }

    ghost predicate Has(n: Node)
      reads this
    {
      n.path in st.nodes && st.nodes[n.path] == n && n.path in st.views && n.path in st.shape
    }

    ghost predicate SlotOf(slot: Slot, n: Node?)
      reads this, st.nodes.Values
    {
      match slot
      case AtRoot => root == n
      case At(p, j) => Has(p) && j < |p.kids| && p.kids[j] == n
    }

    /** data, up to off, leads to the edge on which n sits. */
    ghost predicate Arrived(n: Node, data: Key, off: nat)
      reads this
    {
      && Has(n) && off + |st.views[n.path].prefix| == |n.path| && off <= |data|
      && n.path[..off] == data[..off]
    }

    /** Every node on the way to q that is not above n is at or below it. */
    ghost predicate Ahead(n: Node?, q: Key, off: nat)
      reads this
    {
      forall k :: k in st.nodes && k <= q && |k| >= off ==> n != null && n.path <= k
    }

    lemma AtNode(n: Node, open: Open, pending: set<Key>)
      requires Inv(open, pending) && n.path in st.nodes && st.nodes[n.path] == n
      ensures Has(n) && n.View() == st.views[n.path]
      ensures n.Kids(st.shape[n.path], HoleIn(open, n.path)) && LabelOf(n.View(), n.path)
      ensures KidsIn(n.kids, st.nodes) && 0 !in n.path
    {
      hide KidsOf, LabelOf, IsTree, Hung, RootOk;
      assert NodeOk(st, n.path, HoleIn(open, n.path), n.path in pending);
    }

    lemma AtTop(q: Key)
      requires Valid()
      ensures root != null ==> Arrived(root, q, 0)
      ensures Ahead(root, q, 0) && NoneAbove(q, 0) && Collected([], q, 0) && Distinct<SockId>([])
    {
      hide NodesOk, IsTree, Hung;
    }

    lemma ArriveBelow(n: Node, q: Key, next: Node)
      requires Good(st, Closed, {}) && Has(n) && n.path < q
      requires q[|n.path|] in st.shape[n.path] && st.shape[n.path][q[|n.path|]] == next.path
      requires next.path in st.nodes && st.nodes[next.path] == next
      ensures Arrived(next, q, |n.path| + 1)
    {
      hide NodesOk, RootOk, IsTree, Hung;
      var k := n.path;
      LongerEdge(st.shape, k, q[|k|]);
      HungAt(st, k, q[|k|]);
      ViaPrefix(k, q[|k|], next.path, q);
    }

    /** One step of the walk: from a node whose string q extends to the child for q's next
    character, if there is one. */
    lemma StepDown(n: Node, q: Key, next: Node?)
      requires Good(st, Closed, {}) && Has(n) && n.path < q
      requires SlotOk(next, q[|n.path|], st.shape[n.path])
      requires next != null ==> next.path in st.nodes && st.nodes[next.path] == next
      ensures Ahead(next, q, |n.path| + 1)
      ensures next != null ==> Arrived(next, q, |n.path| + 1)
    {
      hide NodesOk, RootOk, IsTree, Hung, Arrived;
      if next != null { ArriveBelow(n, q, next); }
      forall m | m in st.nodes && m <= q && |m| >= |n.path| + 1
        ensures next != null && next.path <= m
      {
        OnTheWay(st.shape, n.path, q, m);
      }
    }

    lemma NoZeroEdge(n: Node)
      requires Valid() && Has(n)
      ensures 0 !in st.shape[n.path]
    {
      hide Mirror, RootOk, KidsIn, Fields;
      forall c | c in st.shape[n.path]
        ensures c != 0
      {
        var m := st.shape[n.path][c];
        assert Via(n.path, c, m) && m in st.nodes;
        assert NodeOk(st, m, HoleIn(Closed, m), m in {});
        assert c in m;
      }
    }

    /** Where the prefix disagrees with data, nothing at or below the node lies on the way. */
    lemma Missed(n: Node, data: Key, off: nat, pos: nat)
      requires Arrived(n, data, off) && Ahead(n, data, off) && LabelOf(n.View(), n.path)
      requires n.View() == st.views[n.path]
      requires pos < |n.prefix| && pos <= |data| - off
      requires pos < |data| - off ==> n.prefix[pos] != data[off..][pos]
      ensures !(n.path <= data)
      ensures forall k :: k in st.nodes && k <= data ==> |k| < off
    {
      assert n.path[off + pos] == n.prefix[pos];
    }

    lemma Matched(n: Node, data: Key, off: nat)
      requires Arrived(n, data, off) && LabelOf(n.View(), n.path) && n.View() == st.views[n.path]
      requires off + |n.prefix| <= |data| && n.prefix == data[off..][..|n.prefix|]
      ensures n.path <= data
    {
      forall i | 0 <= i < |n.path|
        ensures n.path[i] == data[i]
      {
        if i < off {
          assert n.path[i] == n.path[..off][i] == data[..off][i];
        } else {
          assert n.path[i] == n.prefix[i - off];
        }
      }
    }

    /** Compare the node's prefix with q: either q leads through the node, or nothing more of
    the trie is a prefix of q. */
    method Enter(node: Node, q: Key, off: nat) returns (ok: bool)
      requires Valid() && Arrived(node, q, off) && Ahead(node, q, off)
      ensures Has(node) && off <= |node.path|
      ensures ok ==> node.path <= q && |node.path| == off + |node.prefix|
      ensures ok ==> forall k :: k in st.nodes && k <= q && |k| >= off ==> k == node.path || |k| > |node.path|
      ensures !ok ==> forall k :: k in st.nodes && k <= q ==> |k| < off
    {
      hide Inv;
      AtNode(node, Closed, {});
      var pos := node.CheckPrefix(q[off..]);
      ok := pos == |node.prefix|;
      if ok {
        Matched(node, q, off);
      } else {
        Missed(node, q, off, pos);
      }
    }

    /** The slot for the next character of q (the terminating zero at its end). */
    method Advance(node: Node, q: Key, off: nat) returns (next: Node?)
      requires Valid() && Has(node) && node.path <= q && off == |node.path|
      ensures Ahead(next, q, off + 1)
      ensures next != null ==> Arrived(next, q, off + 1)
    {
      hide Good, Node.Kids, LabelOf;
      AtNode(node, Closed, {});
      ghost var k := node.path;
      var c := if off < |q| then q[off] else 0;
      var j := node.Next(c, st.shape[k], NoHole);
      next := if j == -1 then null else node.kids[j];
      if off < |q| { StepDown(node, q, next); } else { NoZeroEdge(node); }
    }

    lemma Nowhere(q: Key, off: nat)
      requires Ahead(null, q, off)
      ensures forall k :: k in st.nodes && k <= q ==> |k| < off
    {
    }

    /** No subscription shorter than d matches q. */
    ghost predicate NoneAbove(q: Key, d: nat)
      reads this
    {
      forall k :: k in Contents() && k <= q ==> |k| >= d
    }

    lemma NoMatch(q: Key, d: nat)
      requires Valid() && NoneAbove(q, d) && forall k :: k in st.nodes && k <= q ==> |k| < d
      ensures !exists k :: k in Contents() && k <= q
    {
      hide NodesOk, IsTree, Hung, RootOk;
    }

    lemma Passed(n: Node, q: Key, d: nat)
      requires Valid() && NoneAbove(q, d) && Has(n) && n.path <= q && d <= |n.path|
      requires forall k :: k in st.nodes && k <= q && |k| >= d ==> k == n.path || |k| > |n.path|
      ensures n.refcount > 0 ==> exists k :: k in Contents() && k <= q
      ensures n.refcount == 0 ==> NoneAbove(q, |n.path| + 1)
    {
      hide NodesOk, IsTree, Hung, RootOk;
      assert n.View() == st.views[n.path];
      if n.refcount > 0 { assert n.path in Contents(); }
    }

    // nn_trie_match
    method Match(q: Key) returns (rc: nat)
      requires Valid()
      ensures rc == (if exists k :: k in Contents() && k <= q then 1 else 0)
    {
      hide *;
      AtTop(q);
      var node := root;
      var off := 0;
      while true
        invariant Valid()
        invariant off <= |q| + 1
        invariant node != null ==> Arrived(node, q, off)
        invariant Ahead(node, q, off) && NoneAbove(q, off)
        decreases |q| + 1 - off
      {
        if node == null {
          Nowhere(q, off);
          NoMatch(q, off);
          return 0;
        }
        var ok := Enter(node, q, off);
        if !ok {
          NoMatch(q, off);
          return 0;
        }
        Passed(node, q, off);
        off := off + |node.prefix|;
        if node.refcount > 0 {
          return 1;
        }
        node := Advance(node, q, off);
        off := off + 1;
      }
    }

    // zlist_append_unique
    static method AppendUnique(list: seq<SockId>, item: SockId) returns (out: seq<SockId>, added: bool)
      requires Distinct(list)
      ensures Distinct(out) && Members(out) == Members(list) + {item}
      ensures added == (item !in list)
      ensures out == if added then list + [item] else list
    {
      for i := 0 to |list|
        invariant item !in list[..i]
      {
        if list[i] == item {
          return list, false;
        }
      }
      assert list[..|list|] == list;
      return list + [item], true;
    }

    method Merge(pub: seq<SockId>, list: seq<SockId>) returns (out: seq<SockId>)
      requires Distinct(pub)
      ensures Distinct(out) && Members(out) == Members(pub) + Members(list)
    {
      out := pub;
      for i := 0 to |list|
        invariant Distinct(out) && Members(out) == Members(pub) + Members(list[..i])
      {
        var added;
        out, added := AppendUnique(out, list[i]);
      }
      assert list[..|list|] == list;
    }

    ghost predicate Collected(pub: seq<SockId>, q: Key, d: nat)
      reads this
    {
      forall s :: s in pub <==> exists k :: k in Contents() && k <= q && |k| < d && s in Contents()[k]
    }

    lemma AllCollected(pub: seq<SockId>, q: Key, d: nat)
      requires Valid() && Collected(pub, q, d) && forall k :: k in st.nodes && k <= q ==> |k| < d
      ensures forall s :: s in pub <==> exists k :: k in Contents() && k <= q && s in Contents()[k]
    {
      hide NodesOk, IsTree, Hung, RootOk;
      forall s | exists k :: k in Contents() && k <= q && s in Contents()[k]
        ensures s in pub
      {
        var k :| k in Contents() && k <= q && s in Contents()[k];
        assert k in st.nodes;
      }
    }

    lemma Gathered(n: Node, q: Key, d: nat, pub0: seq<SockId>, pub: seq<SockId>)
      requires Valid() && Has(n) && n.path <= q && d <= |n.path|
      requires forall k :: k in st.nodes && k <= q && |k| >= d ==> k == n.path || |k| > |n.path|
      requires Collected(pub0, q, d)
      requires Members(pub) == Members(pub0) + (if n.refcount > 0 then Members(n.sockids) else {})
      ensures Collected(pub, q, |n.path| + 1)
    {
      hide NodesOk, IsTree, Hung, RootOk;
      assert n.View() == st.views[n.path];
      forall s
        ensures s in pub <==> exists k :: k in Contents() && k <= q && |k| < |n.path| + 1 && s in Contents()[k]
      {
        assert s in pub <==> s in Members(pub);
        assert s in pub0 <==> s in Members(pub0);
        if s in pub && s !in pub0 { assert n.path in Contents() && s in Contents()[n.path]; }
      }
    }

    // nn_trie_tree
    method Tree(q: Key) returns (pub: seq<SockId>)
      requires Valid()
      ensures Distinct(pub)
      ensures forall s :: s in pub <==> exists k :: k in Contents() && k <= q && s in Contents()[k]
    {
      hide *;
      AtTop(q);
      pub := [];
      var node := root;
      var off := 0;
      while true
        invariant Valid()
        invariant off <= |q| + 1
        invariant node != null ==> Arrived(node, q, off)
        invariant Ahead(node, q, off)
        invariant Collected(pub, q, off) && Distinct(pub)
        decreases |q| + 1 - off
      {
        if node == null {
          Nowhere(q, off);
          AllCollected(pub, q, off);
          return;
        }
        var ok := Enter(node, q, off);
        if !ok {
          AllCollected(pub, q, off);
          return;
        }
        ghost var d, pub0 := off, pub;
        off := off + |node.prefix|;
        if node.refcount > 0 {
          pub := Merge(pub, node.sockids);
        }
        Gathered(node, q, d, pub0, pub);
        node := Advance(node, q, off);
        off := off + 1;
      }
    }

    // ---- step 4: new nodes for the rest of the subscription --------------------------

    /** slot is the open place of the tree. */
    ghost predicate OpenSlot(slot: Slot, open: Open)
      reads this, st.nodes.Values
    {
      match open
      case Closed => false
      case OpenRoot => slot == AtRoot && root == null
      case OpenAt(k, c) =>
        && slot.At? && Has(slot.parent) && slot.parent.path == k && slot.j < |slot.parent.kids|
        && slot.parent.Kids(st.shape[k], Hole(c)) && slot.parent.CharAt(slot.j) == c
    }

    /** *slot = n, below another node. */
    method FillBelow(p: Node, j: nat, n: Node, ghost k: Key, ghost c: Byte, ghost hole: Hole)
      requires Inv(OpenAt(k, c), {}) && OpenSlot(At(p, j), OpenAt(k, c))
      requires Fits(k, c, n, n.View()) && Fields(n.View(), n.path, map[], hole)
      requires n.refcount == 0 && (forall x :: x in n.kids ==> x == null) && n !in st.nodes.Values
      modifies this, p
      ensures Inv(OpenAfter(n.path, hole), {n.path})
      ensures Has(n) && st.nodes.Values == old(st.nodes.Values) + {n}
      ensures Contents() == old(Contents())
      ensures st.shape[n.path] == map[] && n.View() == old(n.View())
    {
      hide Good, Fields, KidsOf, Subs, AttachReady, Via, Attached;
      Named(st, OpenAt(k, c), {});
      assert p != n;
      ghost var v := p.View().(kids := p.kids[j := n]);
      p.SetKid(j, n, c, st.shape[k], Hole(c));
      FillReady(st, k, c, j, n, n.View(), hole);
      NothingBeyond(st, k, c, n.path);
      Attach(st, k, c, v, n, n.View(), hole);
      HoldsAttached(st, k, c, v, n);
      MoreValues(st.nodes, n);
      st := Attached(st, k, c, v, n, n.View());
    }

    /** *slot = n, at the root. */
    method FillRoot(n: Node, ghost hole: Hole)
      requires Inv(OpenRoot, {}) && root == null
      requires n.prefix == n.path && 0 !in n.path && Fields(n.View(), n.path, map[], hole)
      requires n.refcount == 0 && (forall x :: x in n.kids ==> x == null)
      modifies this
      ensures Inv(OpenAfter(n.path, hole), {n.path})
      ensures Has(n) && st.nodes.Values == old(st.nodes.Values) + {n}
      ensures Contents() == old(Contents())
      ensures st.shape[n.path] == map[] && n.View() == old(n.View())
    {
      hide Good, Fields, Subs;
      EmptyTrie(st, OpenRoot);
      AttachRoot(n, n.View(), hole);
      root := n;
      st := AttachedRoot(n, n.View());
    }

    /** The open place is where data, up to off, ends. */
    ghost predicate OpenHere(open: Open, data: Key, off: nat) {
      match open
      case Closed => false
      case OpenRoot => off == 0
      case OpenAt(k, c) => |k| + 1 == off && k < data && data[|k|] == c
    }

    method Fill(slot: Slot, n: Node, data: Key, off: nat, ghost open: Open, ghost hole: Hole)
      requires Inv(open, {}) && OpenSlot(slot, open) && OpenHere(open, data, off) && 0 !in data
      requires n.path <= data && |n.path| == off + |n.prefix|
      requires Fields(n.View(), n.path, map[], hole)
      requires n.refcount == 0 && (forall x :: x in n.kids ==> x == null) && n !in st.nodes.Values
      modifies this, st.nodes.Values
      ensures Inv(OpenAfter(n.path, hole), if hole.Hole? then {} else {n.path})
      ensures Has(n) && st.nodes.Values == old(st.nodes.Values) + {n}
      ensures Contents() == old(Contents())
      ensures st.shape[n.path] == map[] && n.View() == old(n.View())
    {
      hide Good, KidsOf, Subs, Mirror;
      match slot {
        case AtRoot => FillRoot(n, hole);
        case At(p, j) => FillBelow(p, j, n, open.k, open.c, hole);
      }
      if hole.Hole? { StillOpen(st, n.path, hole.c); }
    }

    /** One new node for the next len characters, with a slot for the one after if there is
    more to come. */
    method Link(slot: Slot, data: Key, off: nat, len: nat, more: bool, ghost open: Open) returns (n: Node)
      requires Inv(open, {}) && OpenSlot(slot, open) && OpenHere(open, data, off) && 0 !in data
      requires len <= PREFIX_MAX && if more then off + len < |data| else off + len == |data|
      modifies this, st.nodes.Values
      ensures fresh(n) && Has(n) && n.path == data[..off + len] && n.refcount == 0
      ensures more ==> Inv(OpenAt(n.path, data[off + len]), {}) && OpenSlot(At(n, 0), OpenAt(n.path, data[off + len]))
      ensures !more ==> Inv(Closed, {data})
      ensures st.nodes.Values == old(st.nodes.Values) + {n}
      ensures Contents() == old(Contents())
    {
      hide Good, KidsOf, Subs, Mirror, Fields;
      n := NewNode(data, off, len, more);
      Fill(slot, n, data, off, open, if more then Hole(data[off + len]) else NoHole);
      assert more || data[..off + len] == data;
    }

    static method NewNode(data: Key, off: nat, len: nat, more: bool) returns (n: Node)
      requires len <= PREFIX_MAX && if more then off + len < |data| else off + len == |data|
      ensures fresh(n) && n.path == data[..off + len] && n.refcount == 0 && |n.prefix| == len
      ensures Fields(n.View(), n.path, map[], if more then Hole(data[off + len]) else NoHole)
      ensures n.typ != DENSE_TYPE && (forall x :: x in n.kids ==> x == null)
      ensures more ==> |n.kids| == 1 && |n.sparse| == 1 && n.sparse[0] == data[off + len]
    {
      n := new Node(data[off..off + len], data[..off + len]);
      Blank(n.View(), n.path);
      if more {
        var j := n.AddSparse(data[off + len], map[]);
      }
    }

    /** Step 4: create new nodes for the remaining part of the subscription. */
    method Grow(slot0: Slot, data: Key, off0: nat, ghost open0: Open) returns (n: Node)
      requires Inv(open0, {}) && OpenSlot(slot0, open0) && OpenHere(open0, data, off0) && 0 !in data
      modifies this, st.nodes.Values
      ensures Inv(Closed, {data}) && Has(n) && n.path == data && n.refcount == 0
      ensures fresh(st.nodes.Values - old(st.nodes.Values)) && old(st.nodes.Values) <= st.nodes.Values
      ensures Contents() == old(Contents())
    {
      hide Inv, OpenSlot, Subs;
      var slot, off := slot0, off0;
      ghost var open := open0;
      while true
        invariant Inv(open, {}) && OpenSlot(slot, open) && OpenHere(open, data, off)
        invariant fresh(st.nodes.Values - old(st.nodes.Values)) && old(st.nodes.Values) <= st.nodes.Values
        invariant Contents() == old(Contents())
        decreases |data| - off
      {
        var more := |data| - off > PREFIX_MAX;
        var len := if |data| - off < PREFIX_MAX then |data| - off else PREFIX_MAX;
        n := Link(slot, data, off, len, more, open);
        off := off + len;
        if !more {
          assert data[..off] == data;
          return;
        }
        slot, open := At(n, 0), OpenAt(n.path, data[off]);
        off := off + 1;
      }
    }

    // ---- step 2: split a prefix ---------------------------------------------------------

    /** A fresh node takes the first part of n's prefix and has n as its only child. */
    static method NewParent(n: Node, pos: nat, ghost at: Key) returns (p: Node)
      requires pos < |n.prefix| <= PREFIX_MAX
      requires pos <= |at| && n.prefix[..pos] == at[|at| - pos..]
      modifies n`prefix
      ensures fresh(p) && p.path == at && p.refcount == 0 && |p.prefix| == pos && p.prefix == old(n.prefix)[..pos]
      ensures Fields(p.View(), at, map[old(n.prefix)[pos] := n.path], NoHole)
      ensures p.kids == [n] && p.typ == 1 && p.sparse == [old(n.prefix)[pos]]
      ensures n.View() == old(n.View()).(prefix := old(n.prefix)[pos + 1..])
    {
      var d := n.prefix[pos];
      p := new Node(n.prefix[..pos], at);
      Blank(p.View(), at);
      var j := p.AddSparse(d, map[]);
      p.SetKid(0, n, d, map[], Hole(d));
      assert map[][d := n.path] == map[d := n.path];
      n.prefix := n.prefix[pos + 1..];
    }

    /** The heap side of a split below q: the new node, the shorter prefix, the slot. */
    method Splice(q: Node, i: nat, n: Node, pos: nat, ghost c: Byte, ghost at: Key) returns (p: Node)
      requires Holds(st, {}) && q != n && pos < |n.prefix| <= PREFIX_MAX
      requires pos <= |at| && n.prefix[..pos] == at[|at| - pos..]
      requires q.path in st.shape && c in st.shape[q.path] && q.Kids(st.shape[q.path], NoHole)
      requires i < |q.kids| && q.CharAt(i) == c
      modifies q, n
      ensures Holds(st, {q, n}) && fresh(p) && p.path == at
      ensures n.View() == old(n.View()).(prefix := old(n.prefix)[pos + 1..])
      ensures q.View() == old(q.View()).(kids := old(q.kids)[i := p])
      ensures KidsOf(q.View(), st.shape[q.path][c := at], NoHole)
      ensures Fields(p.View(), at, map[old(n.prefix)[pos] := n.path], NoHole)
      ensures p.refcount == 0 && p.kids == [n] && p.typ == 1 && |p.prefix| == pos && p.sparse == [old(n.prefix)[pos]]
    {
      hide Fields, KidsOf;
      p := NewParent(n, pos, at);
      q.SetKid(i, p, c, st.shape[q.path], NoHole);
    }

    lemma SpliceReady(q: Node, i: nat, n: Node, pos: nat) returns (c: Byte, at: Key)
      requires Valid() && SlotOf(At(q, i), n) && Has(n) && pos < |n.prefix|
      ensures Holds(st, {}) && q != n && |n.prefix| <= PREFIX_MAX
      ensures |n.prefix| <= |n.path| && at == n.path[..|n.path| - |n.prefix| + pos]
      ensures pos <= |at| && n.prefix[..pos] == at[|at| - pos..]
      ensures q.path in st.shape && c in st.shape[q.path] && q.Kids(st.shape[q.path], NoHole)
      ensures i < |q.kids| && q.CharAt(i) == c && st.shape[q.path][c] == n.path
    {
      hide Good, KidsOf;
      AtNode(n, Closed, {});
      AtNode(q, Closed, {});
      c := SlotEdge(st, q.path, i, n, {});
      at := n.path[..|n.path| - |n.prefix| + pos];
      assert n.prefix[..pos] == at[|at| - pos..];
    }

    /** Record a split whose heap side is done. */
    ghost method CommitSplit(q: Node, c: Byte, i: nat, n: Node, pos: nat, p: Node)
      requires Good(st, Closed, {}) && root == st.root && Holds(st, {q, n}) && Has(q) && Has(n)
      requires c in st.shape[q.path] && st.shape[q.path][c] == n.path && i < |st.views[q.path].kids|
      requires pos < |st.views[n.path].prefix| <= |n.path| && p.path == n.path[..|n.path| - |st.views[n.path].prefix| + pos]
      requires n.View() == st.views[n.path].(prefix := st.views[n.path].prefix[pos + 1..])
      requires q.View() == st.views[q.path].(kids := st.views[q.path].kids[i := p])
      requires KidsOf(q.View(), st.shape[q.path][c := p.path], NoHole)
      requires Fields(p.View(), p.path, map[st.views[n.path].prefix[pos] := n.path], NoHole)
      requires p.refcount == 0 && p.kids == [n] && |p.prefix| == pos
      modifies this`st
      ensures Valid() && Has(p) && Has(q) && Has(n)
      ensures st.nodes.Values == old(st.nodes.Values) + {p} && Contents() == old(Contents())
    {
      hide Good, Fields, KidsOf, Subs, Inserted, Holds;
      Named(st, Closed, {});
      ghost var v, chv, pv := q.View(), n.View(), p.View();
      SplitDone(st, q.path, c, i, n.path, pos, v, chv, p, pv);
      HoldsInserted(st, q.path, c, v, chv, p, pv);
      MoreValues(st.nodes, p);
      st := Inserted(st, q.path, c, v, chv, p, pv);
    }

    method SplitBelow(q: Node, i: nat, n: Node, pos: nat) returns (p: Node)
      requires Valid() && SlotOf(At(q, i), n) && Has(n) && pos < |n.prefix|
      modifies this, q, n
      ensures Valid() && fresh(p) && Has(p) && Has(q) && Has(n)
      ensures i < |q.kids| && q.kids[i] == p && p.kids == [n]
      ensures p.typ == 1 && p.refcount == 0 && p.path == old(n.path[..|n.path| - |n.prefix| + pos])
      ensures p.sparse == [old(n.prefix)[pos]]
      ensures st.nodes.Values == old(st.nodes.Values) + {p}
      ensures Contents() == old(Contents())
    {
      hide Good, Fields, KidsOf, Subs, Holds;
      ghost var c, at := SpliceReady(q, i, n, pos);
      AtNode(n, Closed, {});
      AtNode(q, Closed, {});
      p := Splice(q, i, n, pos, c, at);
      CommitSplit(q, c, i, n, pos, p);
    }

    ghost method CommitSplitTop(n: Node, pos: nat, p: Node)
      requires Good(st, Closed, {}) && root == p && st.root == n && Holds(st, {n}) && Has(n)
      requires pos < |st.views[n.path].prefix| == |n.path| && p.path == n.path[..pos] && p.prefix == p.path
      requires n.View() == st.views[n.path].(prefix := st.views[n.path].prefix[pos + 1..])
      requires Fields(p.View(), p.path, map[st.views[n.path].prefix[pos] := n.path], NoHole)
      requires p.refcount == 0 && p.kids == [n]
      modifies this`st
      ensures Valid() && Has(p) && Has(n)
      ensures st.nodes.Values == old(st.nodes.Values) + {p} && Contents() == old(Contents())
    {
      hide Good, Fields, KidsOf, Subs, InsertedTop, Holds;
      Named(st, Closed, {});
      ghost var chv, pv := n.View(), p.View();
      SplitTopDone(st, pos, chv, p, pv);
      HoldsInsertedTop(st, chv, p, pv);
      MoreValues(st.nodes, p);
      st := InsertedTop(st, chv, p, pv);
    }

    lemma TopReady(n: Node, pos: nat)
      requires Valid() && root == n && pos < |n.prefix|
      ensures Has(n) && st.root == n && |n.prefix| <= PREFIX_MAX && n.prefix == n.path
      ensures n.View() == st.views[n.path] && Holds(st, {n})
      ensures n.prefix[..pos] == n.path[..pos] == n.path[..pos][|n.path[..pos]| - pos..]
    {
      hide NodesOk, IsTree, Hung, Rooted;
      AtNode(n, Closed, {});
    }

    method SplitTop(n: Node, pos: nat) returns (p: Node)
      requires Valid() && root == n && pos < |n.prefix|
      modifies this, n
      ensures Valid() && fresh(p) && Has(p) && Has(n) && root == p && p.kids == [n]
      ensures p.typ == 1 && p.refcount == 0 && p.path == old(n.path[..|n.path| - |n.prefix| + pos])
      ensures p.sparse == [old(n.prefix)[pos]]
      ensures st.nodes.Values == old(st.nodes.Values) + {p}
      ensures Contents() == old(Contents())
    {
      hide Good, Fields, Subs, LabelOf;
      TopReady(n, pos);
      p := NewParent(n, pos, n.path[..pos]);
      root := p;
      CommitSplitTop(n, pos, p);
    }

    // ---- nn_node_compact ------------------------------------------------------------------

    lemma OnlyChild(n: Node)
      requires Valid() && Has(n) && n.typ == 1
      ensures |n.sparse| == |n.kids| == 1 && n.kids[0] != null && n.sparse[0] in st.shape[n.path]
      ensures Has(n.kids[0]) && n.kids[0] != n
      ensures st.shape[n.path].Keys == {n.sparse[0]} && st.shape[n.path][n.sparse[0]] == n.kids[0].path
      ensures n.View() == st.views[n.path] && n.kids[0].View() == st.views[n.kids[0].path]
    {
      hide Good, LabelOf, KidsOf;
      AtNode(n, Closed, {});
      SingleEdge(n.View(), st.shape[n.path]);
      assert n.kids[0] in n.kids;
      AtNode(n.kids[0], Closed, {});
      Longer(n.path, n.sparse[0]);
    }

    lemma Longer(k: Key, c: Byte)
      requires Good(st, Closed, {}) && k in st.shape && c in st.shape[k]
      ensures k != st.shape[k][c]
    {
      hide NodesOk, Hung, RootOk;
      LongerEdge(st.shape, k, c);
    }

    ghost method CommitSkip(q: Node, c: Byte, i: nat, n: Node, d: Byte, ch: Node)
      requires Good(st, Closed, {}) && root == st.root && Holds(st, {q, ch}) && Has(q) && Has(n) && Has(ch)
      requires c in st.shape[q.path] && st.shape[q.path][c] == n.path && i < |st.views[q.path].kids|
      requires st.shape[n.path].Keys == {d} && d in st.shape[n.path] && st.shape[n.path][d] == ch.path
      requires st.views[n.path].refcount == 0
      requires ch.View() == st.views[ch.path].(prefix := st.views[n.path].prefix + [d] + st.views[ch.path].prefix)
      requires q.View() == st.views[q.path].(kids := st.views[q.path].kids[i := ch]) && |ch.prefix| <= PREFIX_MAX
      requires KidsOf(q.View(), st.shape[q.path][c := ch.path], NoHole)
      modifies this`st
      ensures Valid() && Has(ch) && Has(q)
      ensures Lighter(old(st), st) && Above(old(st), st, At(q, i), |q.path| + 1) && Contents() == old(Contents())
    {
      hide Good, KidsOf, LabelOf, Subs, Skipped, Holds, SkipBelow, Lighter, Above;
      Named(st, Closed, {});
      ghost var v, gv := q.View(), ch.View();
      SkipDone(st, q.path, c, i, d, v, gv, ch);
      SkipVias(q.path, c, d);
      HoldsSkipped(st, q.path, c, d, v, gv);
      SkippedLighter(st, q.path, c, d, v, gv, i, ch);
      SkippedAbove(st, q.path, c, d, v, gv, i, ch);
      st := Skipped(st, q.path, c, d, v, gv);
    }

    lemma SkipVias(k: Key, c: Byte, d: Byte)
      requires Good(st, Closed, {}) && k in st.shape && c in st.shape[k] && st.shape[k][c] in st.shape && d in st.shape[st.shape[k][c]]
      ensures Via(k, c, st.shape[k][c]) && Via(st.shape[k][c], d, st.shape[st.shape[k][c]][d])
    {
      hide NodesOk, Hung, RootOk, IsTree;
      LongerEdge(st.shape, k, c);
      LongerEdge(st.shape, st.shape[k][c], d);
    }

    ghost method CommitSkipTop(n: Node, d: Byte, ch: Node)
      requires Good(st, Closed, {}) && root == ch && st.root == n && Holds(st, {ch}) && Has(n) && Has(ch)
      requires st.shape[n.path].Keys == {d} && d in st.shape[n.path] && st.shape[n.path][d] == ch.path
      requires st.views[n.path].refcount == 0
      requires ch.View() == st.views[ch.path].(prefix := st.views[n.path].prefix + [d] + st.views[ch.path].prefix)
      requires |ch.prefix| <= PREFIX_MAX
      modifies this`st
      ensures Valid() && Has(ch)
      ensures Lighter(old(st), st) && Contents() == old(Contents())
    {
      hide Good, KidsOf, LabelOf, Subs, SkippedTop, Holds, SkipReady, Lighter;
      Named(st, Closed, {});
      ghost var gv := ch.View();
      SkipTopDone(st, d, gv, ch);
      TopNode(n);
      HoldsSkippedTop(st, d, gv);
      SkippedTopLighter(st, d, gv);
      Longer(n.path, d);
      st := SkippedTop(st, d, gv);
    }

    lemma TopNode(n: Node)
      requires Good(st, Closed, {}) && st.root == n
      ensures Has(n)
    {
      hide NodesOk, IsTree, Hung;
    }

    method MergeBelow(q: Node, i: nat, n: Node, ch: Node, ghost c: Byte)
      requires Holds(st, {}) && q != n && q != ch && n != ch
      requires q.path in st.shape && c in st.shape[q.path] && q.Kids(st.shape[q.path], NoHole)
      requires i < |q.kids| && q.CharAt(i) == c && |n.sparse| > 0
      modifies q, ch
      ensures Holds(st, {q, ch})
      ensures ch.View() == old(ch.View()).(prefix := n.prefix + [n.sparse[0]] + old(ch.prefix))
      ensures q.View() == old(q.View()).(kids := old(q.kids)[i := ch])
      ensures KidsOf(q.View(), st.shape[q.path][c := ch.path], NoHole)
    {
      hide KidsOf;
      ch.prefix := n.prefix + [n.sparse[0]] + ch.prefix;
      q.SetKid(i, ch, c, st.shape[q.path], NoHole);
    }

    lemma SlotReady(q: Node, i: nat, n: Node) returns (c: Byte)
      requires Valid() && SlotOf(At(q, i), n)
      ensures Holds(st, {}) && q != n && Has(n)
      ensures q.path in st.shape && c in st.shape[q.path] && q.Kids(st.shape[q.path], NoHole)
      ensures i < |q.kids| && q.CharAt(i) == c && st.shape[q.path][c] == n.path && Via(q.path, c, n.path)
      ensures q.View() == st.views[q.path] && n.View() == st.views[n.path]
    {
      hide Good, KidsOf, LabelOf, Via;
      AtNode(q, Closed, {});
      c := SlotEdge(st, q.path, i, n, {});
      AtNode(n, Closed, {});
    }

    method CompactBelow(q: Node, i: nat, n: Node, ch: Node)
      requires Valid() && SlotOf(At(q, i), n) && Has(n) && n.refcount == 0 && n.typ == 1
      requires n.kids == [ch] && |n.prefix| + |ch.prefix| + 1 <= PREFIX_MAX
      modifies this, q, ch
      ensures Valid() && Has(q) && i < |q.kids| && q.kids[i] == ch && Has(ch)
      ensures Lighter(old(st), st) && Above(old(st), st, At(q, i), |q.path| + 1) && Contents() == old(Contents())
    {
      hide Good, KidsOf, LabelOf, Subs, Holds, Lighter, Above, Via;
      ghost var c := SlotReady(q, i, n);
      OnlyChild(n);
      SlotAboveChild(q, c, n, ch);
      MergeBelow(q, i, n, ch, c);
      CommitSkip(q, c, i, n, n.sparse[0], ch);
    }

    lemma SlotAboveChild(q: Node, c: Byte, n: Node, ch: Node)
      requires Good(st, Closed, {}) && Has(q) && Has(n) && c in st.shape[q.path] && st.shape[q.path][c] == n.path
      requires |n.sparse| > 0 && n.sparse[0] in st.shape[n.path] && st.shape[n.path][n.sparse[0]] == ch.path
      ensures q != ch
    {
      hide NodesOk, Hung, RootOk, IsTree;
      LongerEdge(st.shape, q.path, c);
      LongerEdge(st.shape, n.path, n.sparse[0]);
    }

    method CompactTop(n: Node, ch: Node)
      requires Valid() && root == n && n.refcount == 0 && n.typ == 1
      requires n.kids == [ch] && |n.prefix| + |ch.prefix| + 1 <= PREFIX_MAX
      modifies this, ch
      ensures Valid() && root == ch && Has(ch)
      ensures Lighter(old(st), st) && Contents() == old(Contents())
    {
      hide Good, KidsOf, LabelOf, Subs, Lighter;
      TopNode(n);
      OnlyChild(n);
      ch.prefix := n.prefix + [n.sparse[0]] + ch.prefix;
      root := ch;
      CommitSkipTop(n, n.sparse[0], ch);
    }

    ghost function SlotOff(slot: Slot): nat {
      match slot case AtRoot => 0 case At(q, _) => |q.path| + 1
    }

    lemma SameState(slot: Slot)
      ensures Lighter(st, st) && Above(st, st, slot, SlotOff(slot))
    {
    }

    /** *slot = nn_node_compact(*slot) */
    method Compact(slot: Slot, n: Node)
      requires Valid() && SlotOf(slot, n) && Has(n)
      modifies this, st.nodes.Values
      ensures Valid() && st.nodes.Values <= old(st.nodes.Values)
      ensures exists m: Node :: Has(m) && SlotOf(slot, m)
      ensures Lighter(old(st), st) && Above(old(st), st, slot, SlotOff(slot)) && Contents() == old(Contents())
    {
      hide Good, KidsOf, LabelOf, Subs, Mirror, Above;
      SameState(slot);
      if n.refcount > 0 {
        assert Has(n) && SlotOf(slot, n);
        return;
      }
      if n.typ != 1 {
        assert Has(n) && SlotOf(slot, n);
        return;
      }
      OnlyChild(n);
      var ch := n.kids[0];
      ghost var st0 := st;
      if |n.prefix| + |ch.prefix| + 1 > PREFIX_MAX {
        assert Has(n) && SlotOf(slot, n);
        return;
      }
      match slot {
        case AtRoot => CompactTop(n, ch); NothingAbove(st0, st, slot);
        case At(q, i) => CompactBelow(q, i, n, ch);
      }
      assert Has(ch) && SlotOf(slot, ch);
    }

    /** Step 2: the part of n's prefix that matches goes to a new node above n. */
    method Split(slot: Slot, n: Node, pos: nat) returns (p: Node)
      requires Valid() && SlotOf(slot, n) && Has(n) && pos < |n.prefix| <= |n.path|
      modifies this, st.nodes.Values
      ensures Valid() && Has(p) && p.typ == 1 && p.path == old(n.path[..|n.path| - |n.prefix| + pos])
      ensures p.refcount == 0 && st.shape[p.path].Keys == {old(n.prefix)[pos]}
      ensures fresh(st.nodes.Values - old(st.nodes.Values))
      ensures Contents() == old(Contents())
    {
      hide Good, KidsOf, LabelOf, Subs, Mirror;
      match slot {
        case AtRoot => p := SplitTop(n, pos);
        case At(q, i) => p := SplitBelow(q, i, n, pos);
      }
      AtNode(p, Closed, {});
      OnlyChild(p);
      Compact(At(p, 0), n);
      AtNode(p, Closed, {});
    }

    // ---- steps 3 and 5 --------------------------------------------------------------------

    /** Record a change inside one node. */
    ghost method CommitRevise(n: Node, open: Open, pending: set<Key>, open': Open, pending': set<Key>)
      requires Good(st, open, pending) && root == st.root && Holds(st, {n}) && Has(n)
      requires ReviseReady(st, n.path, n.View(), open, pending, open', pending')
      modifies this`st
      ensures Inv(open', pending') && Has(n) && st == Revised(old(st), n.path, n.View())
      ensures Contents() == if n.refcount > 0 then old(Contents())[n.path := Members(n.sockids)] else old(Contents()) - {n.path}
    {
      hide Good, ReviseReady, Subs, Holds;
      Named(st, open, pending);
      ghost var v := n.View();
      Revise(st, n.path, v, open, pending, open', pending');
      HoldsRevised(st, n);
      RevisedSubs(st, n.path, v);
      st := Revised(st, n.path, v);
    }

    /** Room for one more child, on the heap. */
    method Widen(n: Node, c: Byte) returns (j: nat)
      requires Valid() && Has(n) && c !in st.shape[n.path]
      modifies n
      ensures Holds(st, {n}) && n.Kids(st.shape[n.path], Hole(c)) && n.prefix == old(n.prefix)
      ensures forall x :: x in n.kids && x != null ==> x in old(n.kids)
      ensures if old(n.typ) == SPARSE_MAX && !carry then n.refcount == 0 && n.sockids == []
              else n.refcount == old(n.refcount) && n.sockids == old(n.sockids)
      ensures j < |n.kids| && n.CharAt(j) == c
    {
      hide Good, KidsOf, LabelOf;
      AtNode(n, Closed, {});
      assert n.typ <= DENSE_TYPE by { TypeBound(n.View(), st.shape[n.path]); }
      if n.typ < SPARSE_MAX {
        j := n.AddSparse(c, st.shape[n.path]);
      } else if n.typ == DENSE_TYPE {
        j := n.AddDense(c, st.shape[n.path]);
      } else {
        j := n.ToDense(c, carry, st.shape[n.path]);
      }
    }

    static lemma TypeBound(v: NodeView, edges: Edges)
      requires KidsOf(v, edges, NoHole)
      ensures v.typ <= DENSE_TYPE
    {
    }

    lemma WidenReady(n: Node, c: Byte, v: NodeView)
      requires Good(st, Closed, {}) && Has(n) && KidsOf(v, st.shape[n.path], Hole(c))
      requires v.prefix == st.views[n.path].prefix
      requires forall x :: x in v.kids && x != null ==> x in st.views[n.path].kids
      requires (v.refcount == 0 && v.sockids == [])
            || (v.refcount == st.views[n.path].refcount && v.sockids == st.views[n.path].sockids)
      ensures ReviseReady(st, n.path, v, Closed, {}, OpenAt(n.path, c), {})
    {
      hide IsTree, Hung, RootOk, KidsOf;
      assert NodeOk(st, n.path, HoleIn(Closed, n.path), n.path in {});
    }

    /** Step 3: adjust the child array to accommodate a new character. */
    method Extend(n: Node, c: Byte) returns (j: nat)
      requires Valid() && Has(n) && c !in st.shape[n.path]
      modifies this, n
      ensures Inv(OpenAt(n.path, c), {}) && OpenSlot(At(n, j), OpenAt(n.path, c))
      ensures st.nodes == old(st.nodes)
      ensures Contents() == if old(n.typ) == SPARSE_MAX && !carry then old(Contents()) - {n.path} else old(Contents())
    {
      hide Good, KidsOf, LabelOf, Subs, Holds, ReviseReady;
      AtNode(n, Closed, {});
      KeepSubs(n.path);
      j := Widen(n, c);
      WidenReady(n, c, n.View());
      CommitRevise(n, Closed, {}, OpenAt(n.path, c), {});
    }

    lemma KeepSubs(k: Key)
      requires k in st.views
      ensures st.views[k].refcount > 0 ==> Contents()[k := Members(st.views[k].sockids)] == Contents()
      ensures st.views[k].refcount == 0 ==> Contents() - {k} == Contents()
    {
    }

    lemma ListedReady(n: Node, pending: set<Key>, v: NodeView)
      requires Good(st, Closed, pending) && Has(n) && pending <= {n.path}
      requires v == st.views[n.path].(refcount := v.refcount, sockids := v.sockids)
      requires v.refcount == |v.sockids| > 0 && Distinct(v.sockids)
      ensures ReviseReady(st, n.path, v, Closed, pending, Closed, {})
    {
      hide IsTree, Hung, RootOk, KidsOf;
      assert NodeOk(st, n.path, HoleIn(Closed, n.path), n.path in pending);
      KidsAlone(st.views[n.path], v, st.shape[n.path], NoHole);
    }

    /** One more subscriber in the node's list, on the heap. */
    method Append(n: Node, sockid: SockId) returns (rc: nat)
      requires Holds(st, {}) && n.refcount == |n.sockids| && Distinct(n.sockids)
      modifies n
      ensures Holds(st, {n}) && n.refcount == |n.sockids| > 0 && Distinct(n.sockids)
      ensures n.View() == old(n.View()).(refcount := n.refcount, sockids := n.sockids)
      ensures Members(n.sockids) == Members(old(n.sockids)) + {sockid}
      ensures rc == if sockid in Members(old(n.sockids)) then (if |Members(n.sockids)| == 1 then 1 else 0) else 2
    {
      var added;
      n.sockids, added := AppendUnique(n.sockids, sockid);
      if added {
        n.refcount := n.refcount + 1;
        rc := 2;
      } else {
        Count(n.sockids);
        rc := if n.refcount == 1 then 1 else 0;
      }
    }

    /** Step 5: create the subscription as such. */
    method Enlist(n: Node, sockid: SockId, ghost pending: set<Key>) returns (rc: nat)
      requires Inv(Closed, pending) && Has(n) && pending <= {n.path}
      modifies this, n
      ensures Valid() && st.nodes == old(st.nodes) && Contents() == Added(old(Contents()), n.path, sockid)
      ensures rc == if n.path in old(Contents()) && sockid in old(Contents())[n.path]
                    then (if |Contents()[n.path]| == 1 then 1 else 0) else 2
    {
      hide Good, KidsOf, Holds, ReviseReady;
      AtNode(n, Closed, pending);
      assert n.path in Contents() ==> Contents()[n.path] == Members(n.sockids);
      assert n.path !in Contents() ==> Members(n.sockids) == {} by { assert n.path !in Contents() ==> n.sockids == []; }
      rc := Append(n, sockid);
      ListedReady(n, pending, n.View());
      CommitRevise(n, Closed, pending, Closed, {});
    }

    lemma Step(n: Node, q: Key, j: nat)
      requires Valid() && Has(n) && n.path < q && j < |n.kids| && n.kids[j] != null
      requires SlotOk(n.kids[j], q[|n.path|], st.shape[n.path])
      ensures Ahead(n.kids[j], q, |n.path| + 1) && Arrived(n.kids[j], q, |n.path| + 1)
      ensures SlotOf(At(n, j), n.kids[j])
    {
      hide Good, LabelOf, KidsOf, Ahead, Arrived;
      AtNode(n, Closed, {});
      assert n.kids[j] in n.kids;
      StepDown(n, q, n.kids[j]);
    }

    lemma AtRootSlot()
      ensures SlotOf(AtRoot, root)
    {
    }

    lemma Where(n: Node, data: Key, off: nat)
      requires Valid() && Arrived(n, data, off)
      ensures Has(n) && off + |n.prefix| == |n.path| && off <= |data| && n.prefix == n.path[off..]
      ensures n.Kids(st.shape[n.path], NoHole) && LabelOf(n.View(), n.path) && n.View() == st.views[n.path]
    {
      hide Good, KidsOf;
      AtNode(n, Closed, {});
    }

    /** Step 1: traverse the trie as far as data goes. */
    method Walk(data: Key) returns (slot: Slot, n: Node, off: nat, pos: nat)
      requires Valid() && root != null
      ensures SlotOf(slot, n) && Stopped(n, data, off, pos)
    {
      hide Inv, Ahead, Arrived, LabelOf, Node.Kids, SlotOf;
      AtTop(data);
      AtRootSlot();
      slot, n, off := AtRoot, root, 0;
      while true
        invariant Valid() && SlotOf(slot, n) && Arrived(n, data, off) && Ahead(n, data, off)
        decreases |data| - off
      {
        Where(n, data, off);
        pos := n.CheckPrefix(data[off..]);
        Agreed(n, data, off, pos);
        if pos < |n.prefix| {
          return;
        }
        if off + pos == |data| {
          return;
        }
        var j := n.Next(data[off + pos], st.shape[n.path], NoHole);
        if j == -1 || n.kids[j] == null {
          return;
        }
        Step(n, data, j);
        slot, n, off := At(n, j), n.kids[j], off + pos + 1;
      }
    }

    lemma Agreed(n: Node, data: Key, off: nat, pos: nat)
      requires Arrived(n, data, off) && LabelOf(n.View(), n.path) && n.View() == st.views[n.path]
      requires pos <= |n.prefix| && pos <= |data| - off && n.prefix[..pos] == data[off..][..pos]
      ensures n.path[..off + pos] == data[..off + pos]
      ensures pos == |n.prefix| ==> n.path == data[..off + pos]
      ensures pos == |n.prefix| && off + pos < |data| ==> n.path < data && data[|n.path|] == data[off + pos]
    {
      forall i | 0 <= i < off + pos
        ensures n.path[i] == data[i]
      {
        if i < off {
          assert n.path[i] == n.path[..off][i] == data[..off][i];
        } else {
          assert n.path[i] == n.prefix[..pos][i - off] == data[off..][..pos][i - off];
        }
      }
    }

    /** The nodes that lose their own subscription when data is subscribed: as written, a full
    sparse array is converted, and with it the node's references are dropped. */
    ghost function DroppedBySub(data: Key): set<Key>
      reads this
    {
      set k | k in st.nodes && k in st.shape && k in st.views
              && !carry && k < data && data[|k|] !in st.shape[k] && st.views[k].typ == SPARSE_MAX
    }

    /** Where Walk stops. */
    ghost predicate Stopped(n: Node, data: Key, off: nat, pos: nat)
      reads this, n
    {
      && Has(n) && off + pos <= |data| && pos <= |n.prefix| && off + |n.prefix| == |n.path| && n.prefix == n.path[off..]
      && n.path[..off + pos] == data[..off + pos] && Ahead(n, data, off)
      && (off + pos < |data| && pos < |n.prefix| ==> n.prefix[pos] != data[off + pos])
      && (off + pos < |data| && pos == |n.prefix| ==> data[off + pos] !in st.shape[n.path])
    }

    lemma StopAbove(n: Node, data: Key, off: nat, k: Key)
      requires IsTree(st.shape) && Has(n) && off <= |data| && off <= |n.path| && n.path[..off] == data[..off]
      requires k in st.shape && k < data && |k| < off
      ensures data[|k|] in st.shape[k]
    {
      assert k < n.path && n.path[|k|] == data[|k|] by {
        assert forall i :: 0 <= i < off ==> n.path[i] == n.path[..off][i] == data[i];
      }
      assert RoutedAt(st.shape, k, n.path);
    }

    lemma StopBelow(n: Node, data: Key, off: nat, pos: nat, k: Key)
      requires Routed(st.shape) && Stopped(n, data, off, pos)
      requires k in st.shape && k < data && data[|k|] !in st.shape[k] && n.path <= k
      ensures k == n.path && pos == |n.prefix| && off + pos < |data|
    {
      assert forall i :: off <= i < |n.path| ==> n.path[i] == n.prefix[i - off];
      if pos == |n.prefix| { assert RoutedAt(st.shape, n.path, k); }
    }

    /** The walk stops at the only node from which data has nowhere to go. */
    lemma StopIsUnique(n: Node, data: Key, off: nat, pos: nat, k: Key)
      requires Good(st, Closed, {}) && Stopped(n, data, off, pos)
      requires k in st.shape && k < data && data[|k|] !in st.shape[k]
      ensures k == n.path && pos == |n.prefix| && off + pos < |data|
    {
      hide NodesOk, Hung, RootOk;
      if |k| < off {
        assert n.path[..off] == n.path[..off + pos][..off] == data[..off + pos][..off] == data[..off];
        StopAbove(n, data, off, k);
      } else {
        StopBelow(n, data, off, pos, k);
      }
    }

    /** Subscribing converts n's child array and thereby drops n's own entry. */
    lemma DropsOnly(n: Node, data: Key, off: nat, pos: nat)
      requires Valid() && Stopped(n, data, off, pos)
      ensures DroppedBySub(data) ==
        if pos == |n.prefix| && off + pos < |data| && n.typ == SPARSE_MAX && !carry then {n.path} else {}
    {
      hide Good, Stopped;
      StopFacts(n, data, off, pos);
      forall k | k in DroppedBySub(data)
        ensures k == n.path && pos == |n.prefix| && off + pos < |data|
      {
        StopIsUnique(n, data, off, pos, k);
      }
    }

    lemma StopFacts(n: Node, data: Key, off: nat, pos: nat)
      requires Valid() && Stopped(n, data, off, pos)
      ensures Has(n) && n.View() == st.views[n.path] && off + pos <= |data| && pos <= |n.prefix| <= |n.path|
      ensures off + |n.prefix| == |n.path| && n.path[..off + pos] == data[..off + pos]
      ensures pos == |n.prefix| && off + pos < |data| ==> n.path < data && data[|n.path|] !in st.shape[n.path]
      ensures pos == |n.prefix| && off + pos == |data| ==> n.path == data
      ensures off + pos < |data| && pos < |n.prefix| ==> n.prefix[pos] != data[off + pos]
    {
      hide Good;
      assert n.path[..|n.path|] == n.path;
      assert data[..|data|] == data;
    }

    /** Steps 3 and 4 from the node for data[..here]. */
    method Branch(n: Node, data: Key, here: nat) returns (m: Node)
      requires Valid() && Has(n) && here < |data| && 0 !in data
      requires n.path == data[..here] && data[here] !in st.shape[n.path]
      modifies this, st.nodes.Values
      ensures Inv(Closed, {data}) && Has(m) && m.path == data
      ensures fresh(st.nodes.Values - old(st.nodes.Values))
      ensures Contents() == if old(n.typ) == SPARSE_MAX && !carry then old(Contents()) - {n.path} else old(Contents())
    {
      hide Inv, OpenSlot, Subs;
      var j := Extend(n, data[here]);
      m := Grow(At(n, j), data, here + 1, OpenAt(n.path, data[here]));
    }

    /** Steps 2 to 4: the node for data, from where the walk stopped. */
    method PlaceFrom(slot: Slot, n: Node, data: Key, off: nat, pos: nat) returns (m: Node, ghost pending: set<Key>)
      requires Valid() && 0 !in data && SlotOf(slot, n) && Stopped(n, data, off, pos)
      modifies this, st.nodes.Values
      ensures Inv(Closed, pending) && pending <= {data} && Has(m) && m.path == data
      ensures fresh(st.nodes.Values - old(st.nodes.Values))
      ensures Contents() == old(Contents()) - old(DroppedBySub(data))
    {
      hide Inv, Subs, Stopped, DroppedBySub;
      StopFacts(n, data, off, pos);
      DropsOnly(n, data, off, pos);
      m, pending := n, {};
      if pos < |n.prefix| {
        m := Split(slot, n, pos);
      }
      if off + pos < |data| {
        m := Branch(m, data, off + pos);
        pending := {data};
      }
    }

    /** Steps 1 to 4: the node for data. */
    method Place(data: Key) returns (m: Node, ghost pending: set<Key>)
      requires Valid() && 0 !in data
      modifies this, st.nodes.Values
      ensures Inv(Closed, pending) && pending <= {data} && Has(m) && m.path == data
      ensures fresh(st.nodes.Values - old(st.nodes.Values))
      ensures Contents() == old(Contents()) - old(DroppedBySub(data))
    {
      hide Inv, Subs, Stopped, DroppedBySub;
      if root == null {
        NullRoot(data);
        m := Grow(AtRoot, data, 0, OpenRoot);
        pending := {data};
      } else {
        var slot, n, off, pos := Walk(data);
        m, pending := PlaceFrom(slot, n, data, off, pos);
      }
    }

    // nn_trie_subscribe
    method Subscribe(data: Key, sockid: SockId) returns (rc: nat)
      requires Valid() && 0 !in data
      modifies this, st.nodes.Values
      ensures Valid() && fresh(st.nodes.Values - old(st.nodes.Values))
      ensures Contents() == Added(old(Contents()) - old(DroppedBySub(data)), data, sockid)
      ensures rc == if data in old(Contents()) && sockid in old(Contents())[data]
                    then (if |Contents()[data]| == 1 then 1 else 0) else 2
    {
      hide Inv, Subs, DroppedBySub;
      NotDropped(data);
      var m, pending := Place(data);
      rc := Enlist(m, sockid, pending);
    }

    lemma NotDropped(data: Key)
      ensures data !in DroppedBySub(data)
    {
    }

    lemma NullRoot(data: Key)
      requires Valid() && root == null
      ensures Inv(OpenRoot, {}) && OpenSlot(AtRoot, OpenRoot) && DroppedBySub(data) == {} && Contents() == map[]
    {
      EmptyTrie(st, Closed);
    }

    // ---- nn_trie_unsubscribe --------------------------------------------------------------

    method ClearSlot(q: Node, i: nat, ghost c: Byte)
      requires Holds(st, {}) && q.path in st.shape && c in st.shape[q.path] && q.Kids(st.shape[q.path], NoHole)
      requires i < |q.kids| && q.CharAt(i) == c
      modifies q
      ensures Holds(st, {q}) && KidsOf(q.View(), st.shape[q.path] - {c}, Hole(c))
      ensures q.View() == old(q.View()).(kids := old(q.kids)[i := null])
      ensures i < |q.kids| && q.kids[i] == null && q.CharAt(i) == c
    {
      hide KidsOf;
      q.ClearKid(i, c, st.shape[q.path]);
    }

    ghost method CommitCut(q: Node, c: Byte, i: nat, n: Node)
      requires Has(q) && Has(n) && c in st.shape[q.path] && st.shape[q.path][c] == n.path
      requires Good(st, Closed, {n.path}) && root == st.root && Holds(st, {q})
      requires st.shape[n.path] == map[] && st.views[n.path].refcount == 0
      requires i < |st.views[q.path].kids| && q.View() == st.views[q.path].(kids := st.views[q.path].kids[i := null])
      requires KidsOf(q.View(), st.shape[q.path] - {c}, Hole(c))
      modifies this`st
      ensures Inv(OpenAt(q.path, c), {}) && Has(q) && q.Kids(st.shape[q.path], Hole(c))
      ensures st.nodes.Values <= old(st.nodes.Values)
      ensures Above(old(st), st, At(q, i), |q.path| + 1) && Contents() == old(Contents())
    {
      hide Good, KidsOf, LabelOf, Subs, Cut, Holds, CutReady, Above;
      Named(st, Closed, {n.path});
      ghost var v := q.View();
      CutDone(st, q.path, c, i, v);
      HoldsCut(st, q.path, c, v);
      LongerThan(q.path, c, {n.path});
      CutAbove(st, q.path, c, i, v);
      FewerValues(st.nodes, n.path);
      st := Cut(st, q.path, c, v);
    }

    lemma LongerThan(k: Key, c: Byte, pending: set<Key>)
      requires Good(st, Closed, pending) && k in st.shape && c in st.shape[k]
      ensures |k| < |st.shape[k][c]|
    {
      hide NodesOk, Hung, RootOk, IsTree;
      LongerEdge(st.shape, k, c);
    }

    method FreeBelow(q: Node, i: nat, n: Node)
      requires Inv(Closed, {n.path}) && SlotOf(At(q, i), n) && Has(n)
      requires st.shape[n.path] == map[] && n.refcount == 0
      modifies this, q
      ensures |q.path| < |n.path| && Inv(OpenAt(q.path, n.path[|q.path|]), {}) && OpenSlot(At(q, i), OpenAt(q.path, n.path[|q.path|]))
      ensures st.nodes.Values <= old(st.nodes.Values) && q.kids[i] == null
      ensures Above(old(st), st, At(q, i), |q.path| + 1) && Contents() == old(Contents())
    {
      hide Good, KidsOf, LabelOf, Subs, Holds, Above;
      AtNode(q, Closed, {n.path});
      ghost var c := SlotEdge(st, q.path, i, n, {n.path});
      AtNode(n, Closed, {n.path});
      ClearSlot(q, i, c);
      CommitCut(q, c, i, n);
    }

    method FreeTop(n: Node)
      requires Inv(Closed, {n.path}) && root == n && Has(n)
      requires st.shape[n.path] == map[] && n.refcount == 0
      modifies this
      ensures Valid() && Inv(OpenRoot, {}) && root == null && st.nodes == map[]
      ensures Contents() == old(Contents())
    {
      hide NodesOk, IsTree, Hung, Rooted, Subs;
      AtNode(n, Closed, {n.path});
      CutTop(st);
      root := null;
      st := State(null, map[], map[], map[]);
    }

    /** What a rewriting may leave in a slot: a node in a trie in order, or nothing, the trie
    being open there. */
    ghost predicate Settled(slot: Slot, data: Key)
      reads this, st.nodes.Values
    {
      match slot
      case AtRoot =>
        if root == null then Valid() && Inv(OpenRoot, {}) && st.nodes == map[] else Valid() && Has(root)
      case At(q, i) =>
        && Has(q) && i < |q.kids| && q.path < data
        && if q.kids[i] == null then
             Inv(OpenAt(q.path, data[|q.path|]), {}) && OpenSlot(slot, OpenAt(q.path, data[|q.path|]))
           else Valid() && Has(q.kids[i])
    }

    ghost predicate Empty(slot: Slot)
      reads this, if slot.At? then {slot.parent} else {}
    {
      match slot
      case AtRoot => root == null
      case At(q, i) => i < |q.kids| && q.kids[i] == null
    }

    /** The subscriber leaves the node's list, on the heap. */
    method Strike(n: Node, sockid: SockId)
      requires Holds(st, {}) && n.refcount == |n.sockids| && Distinct(n.sockids) && sockid in n.sockids
      modifies n
      ensures Holds(st, {n}) && n.refcount == |n.sockids| && Distinct(n.sockids)
      ensures n.View() == old(n.View()).(refcount := n.refcount, sockids := n.sockids)
      ensures Members(n.sockids) == Members(old(n.sockids)) - {sockid}
      ensures n.refcount == 0 <==> n.sockids == []
    {
      n.refcount := n.refcount - 1;
      var i := 0;
      while i < |n.sockids|
        invariant 0 <= i <= |n.sockids| && n.sockids == old(n.sockids)
        invariant sockid !in n.sockids[..i]
      {
        if n.sockids[i] == sockid {
          break;
        }
        i := i + 1;
      }
      assert i < |n.sockids|;
      RemovedAt(n.sockids, i);
      n.sockids := RemoveAt(n.sockids, i);
    }

    lemma StruckReady(n: Node, v: NodeView)
      requires Good(st, Closed, {}) && Has(n) && v == st.views[n.path].(refcount := v.refcount, sockids := v.sockids)
      requires v.refcount == |v.sockids| && Distinct(v.sockids)
      ensures v.refcount > 0 || st.shape[n.path] != map[] ==> ReviseReady(st, n.path, v, Closed, {}, Closed, {})
      ensures ReviseReady(st, n.path, v, Closed, {}, Closed, {n.path})
    {
      hide IsTree, Hung, RootOk, KidsOf;
      assert NodeOk(st, n.path, HoleIn(Closed, n.path), n.path in {});
      KidsAlone(st.views[n.path], v, st.shape[n.path], NoHole);
    }

    static lemma NoKids(v: NodeView, edges: Edges)
      requires KidsOf(v, edges, NoHole)
      ensures v.typ == 0 <==> edges == map[]
    {
    }

    lemma ContentsAt(n: Node, pending: set<Key>)
      requires Inv(Closed, pending) && Has(n)
      ensures n.refcount > 0 ==> n.path in Contents() && Contents()[n.path] == Members(n.sockids)
      ensures n.refcount == 0 ==> n.path !in Contents()
    {
      hide Good, KidsOf, LabelOf;
      AtNode(n, Closed, pending);
    }

    /** Drop the reference; the node stays, possibly without references. */
    method Deref(n: Node, sockid: SockId)
      requires Valid() && Has(n) && n.path in Contents() && sockid in Contents()[n.path]
      modifies this`st, n
      ensures Has(n) && st.nodes == old(st.nodes) && st.shape == old(st.shape) && st.views.Keys == old(st.views.Keys)
      ensures st.root == old(st.root)
      ensures if n.refcount == 0 && n.typ == 0 then Inv(Closed, {n.path}) && st.shape[n.path] == map[] else Valid()
      ensures Contents() == Removed(old(Contents()), n.path, sockid)
      ensures n.refcount == 0 <==> old(Contents())[n.path] == {sockid}
      ensures Above(old(st), st, AtRoot, |n.path|)
      ensures n.View() == old(n.View()).(refcount := n.refcount, sockids := n.sockids)
    {
      hide Good, KidsOf, Holds, ReviseReady, Subs, Above;
      ghost var st0 := st;
      Names();
      AtNode(n, Closed, {});
      ContentsAt(n, {});
      NoKids(n.View(), st.shape[n.path]);
      assert sockid in n.sockids;
      Strike(n, sockid);
      StruckReady(n, n.View());
      assert Members(n.sockids) == {} <==> n.sockids == [] by { NoMembers(n.sockids); }
      if n.refcount == 0 && n.typ == 0 {
        CommitRevise(n, Closed, {}, Closed, {n.path});
      } else {
        CommitRevise(n, Closed, {}, Closed, {});
      }
      RevisedAbove(st0, n.path, n.View(), |n.path|);
    }

    static lemma NoMembers(s: seq<SockId>)
      ensures Members(s) == {} <==> s == []
    {
      if s != [] { assert s[0] in Members(s); }
    }

    lemma SlotBefore(slot: Slot, n: Node)
      requires Valid() && SlotOf(slot, n)
      ensures slot.At? ==> Has(n) && slot.parent.path < n.path && SlotOff(slot) <= |n.path|
    {
      hide Good, KidsOf, Via;
      if slot.At? {
        ghost var c := SlotReady(slot.parent, slot.j, n);
        LongEdge(slot.parent.path, c, n.path);
        assert |slot.parent.path| < |n.path| ==> slot.parent.path != n.path;
      }
    }

    /** Free *slot and set it to NULL. */
    method Free(slot: Slot, n: Node)
      requires Inv(Closed, {n.path}) && SlotOf(slot, n) && Has(n)
      requires slot.At? ==> slot.parent.path < n.path
      requires st.shape[n.path] == map[] && n.refcount == 0
      modifies this, st.nodes.Values
      ensures Settled(slot, n.path) && Empty(slot)
      ensures st.nodes.Values <= old(st.nodes.Values)
      ensures Above(old(st), st, slot, SlotOff(slot)) && Contents() == old(Contents())
    {
      hide Good, KidsOf, LabelOf, Subs, Holds, Above;
      ghost var st0 := st;
      match slot {
        case AtRoot => FreeTop(n); NothingAbove(st0, st, slot);
        case At(q, i) => FreeBelow(q, i, n);
      }
    }

    lemma Stays(slot: Slot, n: Node, data: Key)
      requires Valid() && SlotOf(slot, n) && Has(n) && (slot.At? ==> slot.parent.path < data)
      ensures Settled(slot, data) && !Empty(slot)
    {
      hide Good;
    }

    /** Delete a node that is good for nothing, or try to merge it with its child. */
    method Tidy(slot: Slot, n: Node, ghost data: Key)
      requires if n.refcount == 0 && n.typ == 0 then Inv(Closed, {n.path}) && Has(n) && st.shape[n.path] == map[] else Valid()
      requires SlotOf(slot, n) && Has(n) && (slot.At? ==> slot.parent.path < n.path && slot.parent.path < data)
      requires slot.At? ==> n.path[|slot.parent.path|] == data[|slot.parent.path|]
      modifies this, st.nodes.Values
      ensures Settled(slot, data) && st.nodes.Values <= old(st.nodes.Values)
      ensures Above(old(st), st, slot, SlotOff(slot)) && Contents() == old(Contents())
      ensures Empty(slot) ==> old(n.typ) == 0
    {
      hide Good, KidsOf, LabelOf, Subs, Holds, Above;
      if n.typ == 0 && n.refcount == 0 {
        Free(slot, n);
      } else {
        Compact(slot, n);
        ghost var m: Node :| Has(m) && SlotOf(slot, m);
        Stays(slot, m, data);
      }
    }

    /** The label `found`: the end of the subscription. */
    method Release(slot: Slot, n: Node, sockid: SockId) returns (rc: int)
      requires Valid() && SlotOf(slot, n) && Has(n)
      requires n.path in Contents() && sockid in Contents()[n.path]
      modifies this, st.nodes.Values
      ensures Settled(slot, n.path) && st.nodes.Values <= old(st.nodes.Values)
      ensures Contents() == Removed(old(Contents()), n.path, sockid)
      ensures Above(old(st), st, slot, SlotOff(slot))
      ensures rc == if old(Contents())[n.path] == {sockid} then 1 else 0
      ensures rc == 0 ==> !Empty(slot)
    {
      hide Good, KidsOf, LabelOf, Subs, Holds, Above, Settled, Empty;
      ghost var st0 := st;
      SlotBefore(slot, n);
      Names();
      Deref(n, sockid);
      ghost var st1 := st;
      if n.refcount == 0 {
        Tidy(slot, n, n.path);
        rc := 1;
      } else {
        SameState(slot);
        Stays(slot, n, n.path);
        rc := 0;
      }
      AboveTrans(st0, st1, st, AtRoot, slot, SlotOff(slot), |n.path|);
    }

    lemma Names()
      requires Good(st, Closed, {})
      ensures Domain(st) && forall k :: k in st.nodes ==> st.nodes[k].path == k
    {
      hide Good;
      Named(st, Closed, {});
    }

    /** The subscription's branch is gone: the array shrinks, on the heap. */
    method Narrow(n: Node, c: Byte)
      requires Inv(OpenAt(n.path, c), {}) && Has(n)
      modifies n
      ensures Holds(st, {n}) && n.Kids(st.shape[n.path], NoHole) && n.prefix == old(n.prefix)
      ensures forall x :: x in n.kids && x != null ==> x in old(n.kids)
      ensures if old(n.typ) == DENSE_TYPE && old(n.nbr) == SPARSE_MAX + 1 && !carry then n.refcount == 0 && n.sockids == []
              else n.refcount == old(n.refcount) && n.sockids == old(n.sockids)
      ensures n.typ == 0 ==> old(n.typ) < DENSE_TYPE
    {
      hide Good, KidsOf, LabelOf;
      AtNode(n, OpenAt(n.path, c), {});
      DenseCount(n.View(), st.shape[n.path], c);
      if n.typ < DENSE_TYPE {
        n.DropSparse(c, st.shape[n.path]);
      } else if n.nbr > SPARSE_MAX + 1 {
        n.DropDense(c, st.shape[n.path]);
      } else {
        n.ToSparse(carry, c, st.shape[n.path]);
      }
    }

    static lemma DenseCount(v: NodeView, edges: Edges, c: Byte)
      requires KidsOf(v, edges, Hole(c))
      ensures v.typ <= DENSE_TYPE
      ensures v.typ == DENSE_TYPE ==> v.nbr > SPARSE_MAX
    {
    }

    lemma NarrowReady(n: Node, c: Byte, v: NodeView)
      requires Good(st, OpenAt(n.path, c), {}) && Has(n) && KidsOf(v, st.shape[n.path], NoHole)
      requires v.prefix == st.views[n.path].prefix
      requires forall x :: x in v.kids && x != null ==> x in st.views[n.path].kids
      requires (v.refcount == 0 && v.sockids == [])
            || (v.refcount == st.views[n.path].refcount && v.sockids == st.views[n.path].sockids)
      ensures v.refcount > 0 || st.shape[n.path] != map[] ==> ReviseReady(st, n.path, v, OpenAt(n.path, c), {}, Closed, {})
      ensures ReviseReady(st, n.path, v, OpenAt(n.path, c), {}, Closed, {n.path})
    {
      hide IsTree, Hung, RootOk, KidsOf;
      assert NodeOk(st, n.path, HoleIn(OpenAt(n.path, c), n.path), n.path in {});
    }

    /** Close the hole in n. */
    method Shrink(n: Node, c: Byte)
      requires Inv(OpenAt(n.path, c), {}) && Has(n)
      modifies this`st, n
      ensures Has(n) && st.nodes == old(st.nodes) && st.views.Keys == old(st.views.Keys) && st.shape == old(st.shape)
      ensures st.root == old(st.root)
      ensures if n.refcount == 0 && n.typ == 0 then Inv(Closed, {n.path}) && st.shape[n.path] == map[] else Valid()
      ensures Contents() == if old(n.typ) == DENSE_TYPE && old(n.nbr) == SPARSE_MAX + 1 && !carry
                            then old(Contents()) - {n.path} else old(Contents())
      ensures Above(old(st), st, AtRoot, |n.path|)
      ensures n.typ == 0 ==> old(n.typ) < DENSE_TYPE
    {
      hide Good, KidsOf, Holds, ReviseReady, Subs, Above;
      ghost var st0, open := st, OpenAt(n.path, c);
      InNames(open);
      AtNode(n, open, {});
      KeepSubs(n.path);
      Narrow(n, c);
      NoKids(n.View(), st.shape[n.path]);
      NarrowReady(n, c, n.View());
      if n.refcount == 0 && n.typ == 0 {
        CommitRevise(n, open, {}, Closed, {n.path});
      } else {
        CommitRevise(n, open, {}, Closed, {});
      }
      RevisedAbove(st0, n.path, n.View(), |n.path|);
    }

    lemma InNames(open: Open)
      requires Good(st, open, {})
      ensures Domain(st) && forall k :: k in st.nodes ==> st.nodes[k].path == k
    {
      hide Good;
      Named(st, open, {});
    }

    /** Remove the null child for data's next character, and with it perhaps the node. */
    method Prune(slot: Slot, n: Node, ghost data: Key, c: Byte)
      requires Inv(OpenAt(n.path, c), {}) && Has(n) && SlotOf(slot, n) && n.path < data && c == data[|n.path|]
      requires slot.At? ==> slot.parent.path < n.path
      modifies this, st.nodes.Values
      ensures Settled(slot, data) && st.nodes.Values <= old(st.nodes.Values)
      ensures Contents() == if old(n.typ) == DENSE_TYPE && old(n.nbr) == SPARSE_MAX + 1 && !carry
                            then old(Contents()) - {n.path} else old(Contents())
      ensures Above(old(st), st, slot, SlotOff(slot))
      ensures Empty(slot) ==> old(n.typ) < DENSE_TYPE
    {
      hide Inv, Subs, Above, Settled, Empty;
      ghost var st0 := st;
      NamesHere(OpenAt(n.path, c));
      Shrink(n, c);
      ghost var st1 := st;
      Tidy(slot, n, data);
      AboveTrans(st0, st1, st, AtRoot, slot, SlotOff(slot), |n.path|);
    }

    lemma NamesHere(open: Open)
      requires Inv(open, {})
      ensures Domain(st) && forall k :: k in st.nodes ==> st.nodes[k].path == k
    {
      hide Good;
      InNames(open);
    }

    ghost predicate Subscribed(data: Key, s: SockId)
      reads this
    {
      data in Contents() && s in Contents()[data]
    }

    /** The node that a call for data ends at: the one for data, or the one whose edge data
    leads to exactly. */
    ghost predicate Reached(k: Key, data: Key)
      reads this
    {
      k in st.views && (k == data || (data <= k && |k| == |data| + |st.views[k].prefix|))
    }

    static ghost predicate InDenseRange(v: NodeView, c: Byte) {
      v.typ == DENSE_TYPE && v.min <= c <= v.max
    }

    /** A call for a string nobody is subscribed to does no harm: the walk meets no empty slot
    of a dense array, and it ends at no node that others are subscribed to. */
    ghost predicate Quiet(data: Key)
      reads this
    {
      && (root == null ==> data == [])
      && (forall k :: Reached(k, data) ==> st.views[k].refcount == 0)
      && (forall k :: k in st.views && k in st.shape && k < data && InDenseRange(st.views[k], data[|k|]) ==>
            data[|k|] in st.shape[k])
    }

    ghost function DroppedByUnsub(data: Key, s: SockId): set<Key>
      reads this
    {
      Dropping(st, carry, data, s)
    }

    static ghost predicate WasSlot(st0: State, slot: Slot, n: Node) {
      match slot
      case AtRoot => st0.root == n
      case At(q, i) =>
        && q.path in st0.nodes && q.path in st0.views && st0.nodes[q.path] == q
        && i < |st0.views[q.path].kids| && st0.views[q.path].kids[i] == n
    }

    /** The node of a slot stays in it while things below the slot are rewritten. */
    lemma SlotKept(st0: State, slot: Slot, inner: Node, j: nat, n: Node, off1: nat, open: Open)
      requires Inv(open, {}) && Above(st0, st, At(inner, j), off1) && WasSlot(st0, slot, n)
      requires slot.At? ==> slot.parent != inner && |slot.parent.path| < off1
      ensures SlotOf(slot, n)
    {
      hide Good;
      if slot.At? {
        NamesHere(open);
        AtNode(slot.parent, open, {});
      }
    }

    /** From st0, what lies on the way to data below slot lies at or below n. */
    static ghost predicate OnlyWay(st0: State, slot: Slot, n: Node, data: Key, off: nat) {
      && WasSlot(st0, slot, n) && n.path in st0.nodes && n.path in st0.views && st0.nodes[n.path] == n
      && n.path < data && off <= |n.path| && SlotOffOf(slot) == off
      && (slot.At? ==> slot.parent.path < n.path)
      && forall m :: m in st0.nodes && m <= data && |m| >= off ==> n.path <= m
    }

    static ghost function SlotOffOf(slot: Slot): nat {
      match slot case AtRoot => 0 case At(q, _) => |q.path| + 1
    }

    /** The child is still there: nothing happens at n. */
    lemma KeptLevel(st0: State, slot: Slot, n: Node, j: nat, data: Key, off: nat, s: SockId, lost: set<Key>)
      requires OnlyWay(st0, slot, n, data, off) && Good(st0, Closed, {}) && Valid() && Has(n)
      requires Above(st0, st, At(n, j), |n.path| + 1)
      requires j < |n.kids| && n.kids[j] != null && KidsOf(st0.views[n.path], st0.shape[n.path], NoHole)
      requires j < |st0.views[n.path].kids| && CharHere(st0.views[n.path], j, data[|n.path|])
      requires data in Subs(st0) && Contents() == Removed(Subs(st0), data, s) - lost
      requires lost == From(Dropping(st0, carry, data, s), |n.path| + 1)
      ensures Settled(slot, data) && !Empty(slot) && Above(st0, st, slot, off)
      ensures lost == From(Dropping(st0, carry, data, s), off)
    {
      hide Good, Subs, KidsOf, LabelOf, Dropping, From, Via, Above, Settled;
      SlotKept(st0, slot, n, j, n, |n.path| + 1, Closed);
      Stays(slot, n, data);
      BackAbove(st0, slot, n, j, off);
      var m := SubBelowKid(st0, n, j, data[|n.path|]);
      KeptNotDropping(st0, Contents(), carry, n.path, data, s, lost, m);
      LevelSet(st0, carry, n.path, data, s, off);
    }

    lemma BackAbove(st0: State, slot: Slot, n: Node, j: nat, off: nat)
      requires Good(st0, Closed, {}) && Above(st0, st, At(n, j), |n.path| + 1) && off <= |n.path|
      requires SlotOffOf(slot) == off
      ensures Above(st0, st, slot, off)
    {
      hide Good, Above, Same;
      Named(st0, Closed, {});
      RootStays(st0, st, n, j, |n.path| + 1);
      SameState(slot);
      AboveTrans(st0, st, st, At(n, j), slot, off, |n.path| + 1);
    }

    static lemma RootStays(s0: State, s1: State, n: Node, j: nat, off: nat)
      requires Above(s0, s1, At(n, j), off)
      ensures s1.root == s0.root
    {
    }

    /** A subscription below the child in slot j. */
    lemma SubBelowKid(st0: State, n: Node, j: nat, c: Byte) returns (m: Key)
      requires Valid() && Has(n) && j < |n.kids| && n.kids[j] != null
      requires Above(st0, st, At(n, j), |n.path| + 1) && n.path in st0.nodes && n.path in st0.views && st0.nodes[n.path] == n
      requires CharHere(st0.views[n.path], j, c)
      ensures m in Contents() && Via(n.path, c, m)
    {
      hide Good, KidsOf, LabelOf, Via;
      var kid := n.kids[j];
      var d := SlotReady(n, j, kid);
      assert Same(st0, st, At(n, j), n.path);
      assert d == c;
      m := SomeSubBelow(st, kid.path);
      ViaMore(n.path, c, kid.path, m);
    }

    static lemma ViaMore(k: Key, c: Byte, n: Key, m: Key)
      requires Via(k, c, n) && n <= m
      ensures Via(k, c, m)
    {
    }

    /** The child is gone: n is open for data's next character, and what Prune then drops is
    what was to be dropped at n. */
    lemma GoneLevel(st0: State, slot: Slot, n: Node, j: nat, data: Key, off: nat, s: SockId)
      requires OnlyWay(st0, slot, n, data, off) && Good(st0, Closed, {})
      requires Has(n) && Inv(OpenAt(n.path, data[|n.path|]), {}) && Above(st0, st, At(n, j), |n.path| + 1)
      requires data in Subs(st0) && s in Subs(st0)[data] && Contents() == Removed(Subs(st0), data, s)
      requires From(Dropping(st0, carry, data, s), |n.path| + 1) == {}
      ensures SlotOf(slot, n) && Above(st0, st, slot, off)
      ensures From(Dropping(st0, carry, data, s), off) ==
        if n.typ == DENSE_TYPE && n.nbr == SPARSE_MAX + 1 && !carry then {n.path} else {}
    {
      hide Good, Subs, KidsOf, LabelOf, From, Via, Above, Removed;
      var open := OpenAt(n.path, data[|n.path|]);
      SlotKept(st0, slot, n, j, n, |n.path| + 1, open);
      BackAbove(st0, slot, n, j, off);
      LevelSet(st0, carry, n.path, data, s, off);
      forall m | m in Removed(Subs(st0), data, s)
        ensures !Via(n.path, data[|n.path|], m)
      {
        NoSubBeyond(n.path, data[|n.path|], m);
      }
      GoneAlone(Subs(st0), n.path, data, s);
      SameAt(st0, n, j);
    }

    lemma NoSubBeyond(k: Key, c: Byte, m: Key)
      requires Inv(OpenAt(k, c), {}) && k in st.shape && m in Contents()
      ensures !Via(k, c, m)
    {
      hide NodesOk, IsTree, Hung, RootOk, Via;
      if Via(k, c, m) { NothingBeyond(st, k, c, m); }
    }

    lemma SameAt(st0: State, n: Node, j: nat)
      requires Above(st0, st, At(n, j), |n.path| + 1) && Mirror() && Has(n)
      requires n.path in st0.nodes && n.path in st0.views
      ensures n.typ == st0.views[n.path].typ && n.nbr == st0.views[n.path].nbr
    {
      assert Same(st0, st, At(n, j), n.path);
      assert n.View() == st.views[n.path];
    }

    /** What one level of an unsubscription has done. */
    ghost predicate Undone(st0: State, slot: Slot, data: Key, off: nat, s: SockId, rc: int, lost: set<Key>)
      reads this, st.nodes.Values
    {
      && Settled(slot, data) && Above(st0, st, slot, off)
      && data in Subs(st0) && s in Subs(st0)[data]
      && Contents() == Removed(Subs(st0), data, s) - lost
      && lost == From(Dropping(st0, carry, data, s), off)
      && rc == (if Subs(st0)[data] == {s} then 1 else 0)
      && (rc == 0 ==> !Empty(slot)) && (Empty(slot) ==> lost == {})
    }

    lemma AfterKept(st0: State, slot: Slot, n: Node, j: nat, data: Key, off: nat, s: SockId, rc: int, lost: set<Key>)
      requires OnlyWay(st0, slot, n, data, off) && Good(st0, Closed, {})
      requires KidsOf(st0.views[n.path], st0.shape[n.path], NoHole)
      requires j < |st0.views[n.path].kids| && CharHere(st0.views[n.path], j, data[|n.path|])
      requires Undone(st0, At(n, j), data, |n.path| + 1, s, rc, lost) && j < |n.kids| && n.kids[j] != null
      ensures Undone(st0, slot, data, off, s, rc, lost)
    {
      hide Good, Subs, KidsOf, LabelOf, Dropping, From, Via, Above, OnlyWay, CharHere;
      KeptLevel(st0, slot, n, j, data, off, s, lost);
    }

    method PruneLevel(slot: Slot, n: Node, j: nat, data: Key, c: Byte, ghost off: nat, ghost s: SockId, ghost st0: State, ghost lost0: set<Key>)
      returns (ghost lost: set<Key>)
      requires OnlyWay(st0, slot, n, data, off) && Good(st0, Closed, {}) && c == data[|n.path|]
      requires Undone(st0, At(n, j), data, |n.path| + 1, s, 1, lost0) && Empty(At(n, j))
      modifies this, st.nodes.Values
      ensures Undone(st0, slot, data, off, s, 1, lost) && st.nodes.Values <= old(st.nodes.Values)
    {
      hide Good, Subs, Above, Dropping, From, Removed, KidsOf;
      ghost var st1 := st;
      NoLoss(st0, n, data, s);
      GoneLevel(st0, slot, n, j, data, off, s);
      lost := if n.typ == DENSE_TYPE && n.nbr == SPARSE_MAX + 1 && !carry then {n.path} else {};
      Prune(slot, n, data, c);
      AboveTwice(st0, st1, slot, off);
    }

    lemma NoLoss(st0: State, n: Node, data: Key, s: SockId)
      requires data in Subs(st0) && Contents() == Removed(Subs(st0), data, s) - {}
      ensures Contents() == Removed(Subs(st0), data, s)
    {
    }

    lemma AboveTwice(st0: State, st1: State, slot: Slot, off: nat)
      requires Good(st0, Closed, {}) && Above(st0, st1, slot, off) && Above(st1, st, slot, off) && SlotOffOf(slot) == off
      ensures Above(st0, st, slot, off)
    {
      hide Good, Same;
      forall k | k in st0.nodes && k in st0.views && |k| < off
        ensures Same(st0, st, slot, k)
      {
        assert Same(st0, st1, slot, k);
        Twice(st0, st1, st, slot, k);
      }
    }

    static lemma Twice(s0: State, s1: State, s2: State, slot: Slot, k: Key)
      requires k in s0.nodes && k in s0.views && Same(s0, s1, slot, k)
      requires k in s1.nodes && k in s1.views ==> Same(s1, s2, slot, k)
      ensures Same(s0, s2, slot, k)
    {
    }

    lemma DataAhead(n: Node, data: Key, off: nat, s: SockId)
      requires Valid() && Arrived(n, data, off) && Ahead(n, data, off) && Subscribed(data, s)
      ensures n.path <= data
      ensures n.path < data ==> data[|n.path|] in st.shape[n.path]
    {
      hide NodesOk, Hung, RootOk, IsTree, Mirror;
      assert data in st.nodes;
      if n.path < data { OnTheWay(st.shape, n.path, data, data); }
    }

    lemma AtEnd(slot: Slot, n: Node, data: Key, off: nat, s: SockId)
      requires Valid() && SlotOf(slot, n) && Arrived(n, data, off) && (off == |data| || n.path == data)
      requires Ahead(n, data, off) && Subscribed(data, s)
      ensures n.path == data && From(DroppedByUnsub(data, s), off) == {} && n.refcount > 0
    {
      hide Good, Subs, Alone;
      DataAhead(n, data, off, s);
      assert n.path == data;
      ContentsAt(n, {});
      assert forall k :: k in DroppedByUnsub(data, s) ==> k in st.nodes && |k| < |data|;
    }

    lemma QuietEnd(n: Node, data: Key, off: nat)
      requires Valid() && Quiet(data) && Arrived(n, data, off) && (off == |data| || n.path == data)
      ensures n.refcount == 0
    {
      hide Good;
      AtNode(n, Closed, {});
      assert off == |data| ==> n.path[..off] == data;
      assert Reached(n.path, data);
    }

    /** The end of the subscription: label `found`. */
    method UnsubHere(slot: Slot, n: Node, data: Key, off: nat, sockid: SockId, ghost sub: bool)
      returns (rc: int, ghost lost: set<Key>)
      requires Valid() && SlotOf(slot, n) && Arrived(n, data, off) && SlotOffOf(slot) == off
      requires off == |data| || n.path == data
      requires sub ==> Subscribed(data, sockid) && Ahead(n, data, off)
      requires !sub ==> Quiet(data)
      modifies this, st.nodes.Values
      ensures sub ==> Undone(old(st), slot, data, off, sockid, rc, lost)
      ensures st.nodes.Values <= old(st.nodes.Values)
      ensures !sub ==> st == old(st) && Valid()
    {
      hide Inv, Subs, Above, Settled, Empty, Ahead, Arrived, Quiet;
      lost := {};
      if sub { AtEnd(slot, n, data, off, sockid); } else { QuietEnd(n, data, off); }
      if n.refcount == 0 {
        rc := -EINVAL;
        return;
      }
      OfArrived(n, data, off);
      rc := Release(slot, n, sockid);
      NoneLost(Contents());
    }

    lemma OfArrived(n: Node, data: Key, off: nat)
      requires Arrived(n, data, off)
      ensures Has(n)
    {
    }

    lemma NoneLost(t: Table)
      ensures t - {} == t
    {
    }

    lemma ThroughHere(n: Node, data: Key, off: nat, pos: nat)
      requires Valid() && Arrived(n, data, off) && pos == |n.prefix| && pos <= |data| - off
      requires n.prefix[..pos] == data[off..][..pos]
      ensures n.path <= data && |n.path| == off + pos && Has(n)
      ensures off + pos == |data| ==> n.path == data
    {
      hide Good;
      AtNode(n, Closed, {});
      Matched(n, data, off);
      assert data[..|data|] == data;
    }

    /** A subscribed string never leaves the trie half way. */
    lemma OnCourse(n: Node, data: Key, off: nat, pos: nat, s: SockId)
      requires Valid() && Arrived(n, data, off) && Ahead(n, data, off) && Subscribed(data, s)
      requires pos <= |n.prefix| && pos <= |data| - off
      requires pos < |n.prefix| && pos < |data| - off ==> n.prefix[pos] != data[off..][pos]
      ensures pos == |n.prefix|
    {
      hide Good;
      AtNode(n, Closed, {});
      if pos < |n.prefix| { Missed(n, data, off, pos); }
      DataAhead(n, data, off, s);
    }

    /** There is a child for the next character of a subscribed string, and no empty slot for
    that of a quiet one. */
    lemma ChildThere(n: Node, data: Key, off: nat, j: int, s: SockId, sub: bool)
      requires Valid() && Arrived(n, data, off) && n.path < data
      requires sub ==> Subscribed(data, s) && Ahead(n, data, off)
      requires !sub ==> Quiet(data)
      requires -1 <= j < |n.kids| && (j == -1 ==> data[|n.path|] !in st.shape[n.path])
      requires j >= 0 ==> SlotOk(n.kids[j], data[|n.path|], st.shape[n.path]) && CharHere(n.View(), j, data[|n.path|])
      requires j >= 0 && n.typ != DENSE_TYPE ==> data[|n.path|] in st.shape[n.path]
      ensures j == -1 ==> !sub
      ensures j >= 0 ==> n.kids[j] != null && n.View() == st.views[n.path]
    {
      hide Good;
      if sub { DataAhead(n, data, off, s); }
      AtNode(n, Closed, {});
      if j >= 0 && n.typ == DENSE_TYPE { InRange(n.View(), st.shape[n.path], j); }
    }

    static lemma InRange(v: NodeView, edges: Edges, j: nat)
      requires KidsOf(v, edges, NoHole) && v.typ == DENSE_TYPE && j < |v.kids|
      ensures v.min as int + j <= v.max as int
    {
    }

    lemma WayHere(slot: Slot, n: Node, data: Key, off: nat)
      requires Valid() && SlotOf(slot, n) && Has(n) && n.path < data && off <= |n.path| && SlotOffOf(slot) == off
      requires Ahead(n, data, off)
      ensures OnlyWay(st, slot, n, data, off) && KidsOf(st.views[n.path], st.shape[n.path], NoHole)
      ensures Good(st, Closed, {})
    {
      hide Good, KidsOf, LabelOf;
      AtNode(n, Closed, {});
      SlotBefore(slot, n);
      if slot.At? { AtNode(slot.parent, Closed, {}); }
    }

    lemma Seen(n: Node)
      requires Valid() && Has(n)
      ensures Domain(st) && n.View() == st.views[n.path]
    {
    }

    lemma AfterCall(st0: State, slot: Slot, n: Node, j: nat, data: Key, off: nat, s: SockId, rc: int, lost: set<Key>, sub: bool)
      requires Domain(st0) && n.path in st0.nodes && st0.nodes[n.path] == n && n.path < data
      requires j < |st0.views[n.path].kids| && st0.views[n.path].kids[j] != null && CharHere(st0.views[n.path], j, data[|n.path|])
      requires sub ==> OnlyWay(st0, slot, n, data, off) && KidsOf(st0.views[n.path], st0.shape[n.path], NoHole) && Good(st0, Closed, {})
      requires sub ==> Undone(st0, At(n, j), data, |n.path| + 1, s, rc, lost)
      requires !sub ==> st == st0 && Valid()
      ensures j < |n.kids|
      ensures sub && n.kids[j] != null ==> Undone(st0, slot, data, off, s, rc, lost)
      ensures sub ==> (rc == 0 ==> n.kids[j] != null) && (rc == 0 || rc == 1) && (n.kids[j] == null ==> Empty(At(n, j)))
      ensures !sub ==> n.kids[j] != null
    {
      hide Good, Subs, KidsOf, Dropping, From, Above, OnlyWay, CharHere;
      if sub {
        if n.kids[j] != null { AfterKept(st0, slot, n, j, data, off, s, rc, lost); }
      } else {
        assert n.View() == st.views[n.path];
      }
    }

    method UnsubBelow(slot: Slot, n: Node, j: nat, data: Key, off: nat, here: nat, sockid: SockId, ghost sub: bool)
      returns (rc: int, ghost lost: set<Key>)
      requires Valid() && SlotOf(slot, n) && Has(n) && SlotOffOf(slot) == off <= here == |n.path| && n.path < data
      requires j < |n.kids| && n.kids[j] != null && SlotOk(n.kids[j], data[here], st.shape[n.path])
      requires CharHere(st.views[n.path], j, data[here]) && j < |st.views[n.path].kids|
      requires sub ==> Subscribed(data, sockid) && Ahead(n, data, off)
      requires !sub ==> Quiet(data)
      modifies this, st.nodes.Values
      ensures sub ==> Undone(old(st), slot, data, off, sockid, rc, lost)
      ensures st.nodes.Values <= old(st.nodes.Values)
      ensures !sub ==> st == old(st) && Valid()
      decreases |data| - here, 0
    {
      hide Inv, Subs, Above, Settled, Ahead, Arrived, Quiet, KidsOf, Undone, OnlyWay, Good, CharHere;
      ghost var st0 := st;
      if sub { WayHere(slot, n, data, off); }
      Seen(n);
      Step(n, data, j);
      rc, lost := Unsub(At(n, j), n.kids[j], data, here + 1, sockid, sub);
      AfterCall(st0, slot, n, j, data, off, sockid, rc, lost, sub);
      if rc == 0 {
        return;
      }
      if n.kids[j] != null {
        return 1, lost;
      }
      lost := PruneLevel(slot, n, j, data, data[here], off, sockid, st0, lost);
      return 1, lost;
    }

    // nn_node_unsubscribe
    method Unsub(slot: Slot, n: Node, data: Key, off: nat, sockid: SockId, ghost sub: bool)
      returns (rc: int, ghost lost: set<Key>)
      requires Valid() && SlotOf(slot, n) && Arrived(n, data, off) && SlotOffOf(slot) == off
      requires sub ==> Subscribed(data, sockid) && Ahead(n, data, off)
      requires !sub ==> Quiet(data)
      modifies this, st.nodes.Values
      ensures sub ==> Undone(old(st), slot, data, off, sockid, rc, lost)
      ensures st.nodes.Values <= old(st.nodes.Values)
      ensures !sub ==> st == old(st) && Valid()
      decreases |data| - off, 1
    {
      hide Inv, Subs, Above, Settled, Ahead, Arrived, Quiet, KidsOf, Undone, OnlyWay, Good;
      Where(n, data, off);
      if off == |data| {
        rc, lost := UnsubHere(slot, n, data, off, sockid, sub);
        return;
      }
      var pos := n.CheckPrefix(data[off..]);
      if sub { OnCourse(n, data, off, pos, sockid); }
      if pos != |n.prefix| {
        return 0, {};
      }
      ThroughHere(n, data, off, pos);
      var here := off + pos;
      if here == |data| {
        rc, lost := UnsubHere(slot, n, data, off, sockid, sub);
        return;
      }
      var j := n.Next(data[here], st.shape[n.path], NoHole);
      ChildThere(n, data, off, j, sockid, sub);
      if j == -1 {
        return 0, {};
      }
      rc, lost := UnsubBelow(slot, n, j, data, off, here, sockid, sub);
    }

    lemma EmptyRoot(data: Key, s: SockId)
      requires Valid() && root == null
      ensures !Subscribed(data, s)
    {
      EmptyTrie(st, Closed);
    }

    lemma WholeUndone(st0: State, data: Key, s: SockId, rc: int, lost: set<Key>)
      requires Undone(st0, AtRoot, data, 0, s, rc, lost)
      ensures Valid() && Contents() == Removed(Subs(st0), data, s) - Dropping(st0, carry, data, s)
      ensures rc == if Subs(st0)[data] == {s} then 1 else 0
    {
      hide Good, Subs, Dropping;
      assert From(Dropping(st0, carry, data, s), 0) == Dropping(st0, carry, data, s);
    }

    // nn_trie_unsubscribe
    method Unsubscribe(data: Key, sockid: SockId) returns (rc: int)
      requires Valid() && (Subscribed(data, sockid) || Quiet(data))
      modifies this, st.nodes.Values
      ensures Valid() && st.nodes.Values <= old(st.nodes.Values)
      ensures old(Subscribed(data, sockid)) ==>
        && Contents() == Removed(old(Contents()), data, sockid) - old(DroppedByUnsub(data, sockid))
        && rc == if old(Contents())[data] == {sockid} then 1 else 0
      ensures !old(Subscribed(data, sockid)) ==> st == old(st)
    {
      hide Good, Subs, Ahead, Arrived, Quiet, Subscribed, Undone, NoneAbove, Collected;
      ghost var sub, st0 := Subscribed(data, sockid), st;
      AtTop(data);
      if root == null {
        EmptyRoot(data, sockid);
        return -EINVAL;
      }
      ghost var lost;
      rc, lost := Unsub(AtRoot, root, data, 0, sockid, sub);
      if sub { WholeUndone(st0, data, sockid, rc, lost); }
    }
  }
}
