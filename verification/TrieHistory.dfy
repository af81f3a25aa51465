/** What the trie promises over whole histories, and where the code as written falls short. */
module TrieHistory {
  import opened TrieShape
  import opened TrieNode
  import opened TrieState
  import opened TrieHeap

  datatype Op = Sub(key: Key, sock: SockId) | Unsub(key: Key, sock: SockId)

  // ---- the plain reference ---------------------------------------------------------------

  ghost predicate Listed(t: Table, k: Key, s: SockId) {
    k in t && s in t[k]
  }

  /** A map from strings to sets of subscribers. */
  ghost function Apply(t: Table, op: Op): Table {
    match op
    case Sub(k, s) => Added(t, k, s)
    case Unsub(k, s) => if Listed(t, k, s) then Removed(t, k, s) else t
  }

  ghost function TableOf(ops: seq<Op>): Table {
    if ops == [] then map[] else Apply(TableOf(ops[..|ops| - 1]), ops[|ops| - 1])
  }

  // ---- the code as written, told from the subscriptions alone ----------------------------

  /** The characters with which longer subscribed strings go on from k. */
  ghost function Nexts(t: Table, k: Key): set<Byte> {
    set m | m in t && k < m :: m[|k|]
  }

  /** The entries that go when data is subscribed: of a subscribed string from which longer ones go on
  with exactly eight characters, when data is the first to go on with a ninth. */
  ghost function LostBySub(t: Table, data: Key): set<Key> {
    set k | k in t && k < data && data[|k|] !in Nexts(t, k) && |Nexts(t, k)| == SPARSE_MAX
  }

  /** The entries that go when s leaves data: of a subscribed string from which longer ones go on with
  exactly nine characters, when data's last subscriber is the last to go on with one of them. */
  ghost function LostByUnsub(t: Table, data: Key, s: SockId): set<Key> {
    set k | k in t && k < data && |Nexts(t, k)| == SPARSE_MAX + 1 && Alone(t, k, data, s)
  }

  /** What one call makes of the map, with conversions that carry the entry over or, as written, drop
  it. */
  ghost function ApplyAs(carry: bool, t: Table, op: Op): Table {
    match op
    case Sub(k, s) => if carry then Added(t, k, s) else Added(t - LostBySub(t, k), k, s)
    case Unsub(k, s) =>
      if !Listed(t, k, s) then t
      else if carry then Removed(t, k, s)
      else Removed(t, k, s) - LostByUnsub(t, k, s)
  }

  ghost function TableAs(carry: bool, ops: seq<Op>): Table {
    if ops == [] then map[] else ApplyAs(carry, TableAs(carry, ops[..|ops| - 1]), ops[|ops| - 1])
  }

  /** Every unsubscription is for a subscription that is there at the time. */
  ghost predicate Matched(carry: bool, ops: seq<Op>) {
    forall i :: 0 <= i < |ops| && ops[i].Unsub? ==> Listed(TableAs(carry, ops[..i]), ops[i].key, ops[i].sock)
  }

  ghost predicate NoZeros(ops: seq<Op>) {
    forall i :: 0 <= i < |ops| ==> 0 !in ops[i].key
  }

  lemma {:induction false} CarriedOver(ops: seq<Op>)
    ensures TableAs(true, ops) == TableOf(ops)
  {
    if ops != [] {
      CarriedOver(ops[..|ops| - 1]);
    }
  }

  /** As written, one call does what the plain map does if and only if it loses no entry. */
  lemma AsWrittenExact(t: Table, op: Op)
    ensures ApplyAs(false, t, op) == Apply(t, op) <==>
      match op case Sub(k, s) => LostBySub(t, k) == {} case Unsub(k, s) => Listed(t, k, s) ==> LostByUnsub(t, k, s) == {}
  {
    hide Nexts, Alone;
    match op
    case Sub(k, s) =>
      if m :| m in LostBySub(t, k) {
        assert m in Added(t, k, s) && m !in Added(t - LostBySub(t, k), k, s);
      } else {
        assert t - LostBySub(t, k) == t;
      }
    case Unsub(k, s) =>
      if Listed(t, k, s) {
        if m :| m in LostByUnsub(t, k, s) {
          assert m in Removed(t, k, s) && m !in Removed(t, k, s) - LostByUnsub(t, k, s);
        } else {
          assert Removed(t, k, s) - LostByUnsub(t, k, s) == Removed(t, k, s);
        }
      }
  }

  // ---- nodes and subscriptions -----------------------------------------------------------

  /** A node's edges are the characters with which subscribed strings go on from its string. */
  lemma EdgesAreNexts(st: State, k: Key)
    requires Good(st, Closed, {}) && k in st.nodes
    ensures k in st.shape && st.shape[k].Keys == Nexts(Subs(st), k)
  {
    hide NodesOk, Hung, RootOk;
    var edges := st.shape[k];
    forall c | c in edges ensures c in Nexts(Subs(st), k) {
      LongerEdge(st.shape, k, c);
      var m := SomeSubBelow(st, edges[c]);
      ViaBelow(k, c, edges[c], m);
    }
    forall m | m in Subs(st) && k < m ensures m[|k|] in edges {
      assert RoutedAt(st.shape, k, m);
    }
  }

  lemma ViaBelow(k: Key, c: Byte, n: Key, m: Key)
    requires Via(k, c, n) && n <= m
    ensures k < m && m[|k|] == c
  {
  }

  /** The type and count of a node tell the number of its edges. */
  lemma EdgeCount(v: NodeView, edges: Edges)
    requires KidsOf(v, edges, NoHole)
    ensures v.typ == SPARSE_MAX <==> |edges| == SPARSE_MAX
    ensures v.typ == DENSE_TYPE && v.nbr == SPARSE_MAX + 1 <==> |edges| == SPARSE_MAX + 1
  {
    hide DenseArray;
  }

  lemma NodeCount(st: State, k: Key)
    requires Good(st, Closed, {}) && k in st.nodes
    ensures k in st.views && k in st.shape
    ensures st.views[k].typ == SPARSE_MAX <==> |Nexts(Subs(st), k)| == SPARSE_MAX
    ensures st.views[k].typ == DENSE_TYPE && st.views[k].nbr == SPARSE_MAX + 1 <==> |Nexts(Subs(st), k)| == SPARSE_MAX + 1
  {
    EdgesAreNexts(st, k);
    hide IsTree, Hung, RootOk, KidsIn, KidsOf, LabelOf, Nexts, Subs;
    assert NodeOk(st, k, HoleIn(Closed, k), k in {});
    EdgeCount(st.views[k], st.shape[k]);
    assert |st.shape[k]| == |st.shape[k].Keys|;
  }

  /** The trie's losses are those told from its subscriptions. */
  lemma DropsAreLosses(trie: Trie, data: Key, s: SockId)
    requires trie.Valid() && !trie.carry
    ensures trie.Contents() - trie.DroppedBySub(data) == trie.Contents() - LostBySub(trie.Contents(), data)
    ensures data in trie.Contents() ==> (var t := Removed(trie.Contents(), data, s); t - trie.DroppedByUnsub(data, s) == t - LostByUnsub(trie.Contents(), data, s))
  {
    hide NodesOk, Hung, RootOk, IsTree, Nexts, Alone;
    var t := trie.Contents();
    forall k | k in t
      ensures k in trie.DroppedBySub(data) <==> k in LostBySub(t, data)
      ensures k in trie.DroppedByUnsub(data, s) <==> k in LostByUnsub(t, data, s)
    {
      assert k in trie.st.nodes;
      NodeCount(trie.st, k);
      EdgesAreNexts(trie.st, k);
    }
  }

  // ---- histories -------------------------------------------------------------------------

  method Perform(trie: Trie, op: Op)
    requires trie.Valid() && 0 !in op.key
    requires op.Unsub? ==> Listed(trie.Contents(), op.key, op.sock)
    modifies trie, trie.st.nodes.Values
    ensures trie.Valid() && trie.Contents() == ApplyAs(trie.carry, old(trie.Contents()), op)
    ensures fresh(trie.st.nodes.Values - old(trie.st.nodes.Values))
  {
    hide Trie.Valid, Subs, Removed, Added, LostBySub, LostByUnsub;
    if trie.carry {
      Undropped(trie, op.key, op.sock);
      assert trie.Contents() - {} == trie.Contents();
    } else {
      DropsAreLosses(trie, op.key, op.sock);
    }
    match op {
      case Sub(k, s) =>
        var rc := trie.Subscribe(k, s);
      case Unsub(k, s) =>
        ghost var t := Removed(trie.Contents(), k, s);
        assert t - {} == t;
        var rc := trie.Unsubscribe(k, s);
    }
  }

  lemma Undropped(trie: Trie, k: Key, s: SockId)
    requires trie.carry
    ensures trie.DroppedBySub(k) == {} && trie.DroppedByUnsub(k, s) == {}
  {
  }

  method Query(trie: Trie, q: Key, ghost t: Table) returns (pub: seq<SockId>, rc: nat)
    requires trie.Valid() && trie.Contents() == t
    ensures Distinct(pub)
    ensures forall s :: s in pub <==> exists k :: k in t && k <= q && s in t[k]
    ensures rc == if exists k :: k in t && k <= q then 1 else 0
  {
    hide Good, Subs;
    pub := trie.Tree(q);
    assert trie.Contents() == t;
    rc := trie.Match(q);
    assert trie.Contents() == t;
  }

  /** After any history of subscriptions and matching unsubscriptions the trie answers every query from
  the map that the history makes: the subscribers of exactly the subscribed prefixes of q. With
  conversions that carry over this is the plain map; as written it is the plain map with the losses
  of LostBySub and LostByUnsub. */
  method History(carry: bool, ops: seq<Op>, q: Key) returns (pub: seq<SockId>, rc: nat)
    requires Matched(carry, ops) && NoZeros(ops)
    ensures Distinct(pub)
    ensures carry ==> TableAs(carry, ops) == TableOf(ops)
    ensures forall s :: s in pub <==> exists k :: k in TableAs(carry, ops) && k <= q && s in TableAs(carry, ops)[k]
    ensures rc == if exists k :: k in TableAs(carry, ops) && k <= q then 1 else 0
  {
    hide Trie.Valid, Subs, ApplyAs;
    var trie := new Trie(carry);
    for i := 0 to |ops|
      invariant trie.carry == carry && trie.Valid() && trie.Contents() == TableAs(carry, ops[..i])
      invariant fresh(trie) && fresh(trie.st.nodes.Values)
    {
      assert ops[..i + 1][..i] == ops[..i];
      Perform(trie, ops[i]);
    }
    assert ops[..|ops|] == ops;
    pub, rc := Query(trie, q, TableAs(carry, ops));
    CarriedOver(ops);
  }

  // ---- the losses on real input ----------------------------------------------------------

  const A: Byte := 97

  /** base, with s subscribed to "a" followed by each of the characters 1 to n. */
  ghost function Star(base: Table, s: SockId, n: nat): Table
    requires n < 256
  {
    if n == 0 then base else Star(base, s, n - 1)[[A, n as Byte] := {s}]
  }

  lemma {:induction false} StarKeys(base: Table, s: SockId, n: nat)
    requires n < 256 && (base == map[] || base == map[[A] := {s}])
    ensures forall k :: k in Star(base, s, n) <==> k in base || (|k| == 2 && k[0] == A && 1 <= k[1] as int <= n)
    ensures forall k :: k in Star(base, s, n) ==> Star(base, s, n)[k] == {s}
  {
    if n > 0 {
      StarKeys(base, s, n - 1);
      forall k: Key | |k| == 2 && k[0] == A && k[1] as int == n ensures k == [A, n as Byte] {
      }
    }
  }

  ghost function UpTo(n: nat): set<Byte>
    requires n < 256
  {
    if n == 0 then {} else UpTo(n - 1) + {n as Byte}
  }

  lemma {:induction false} UpToCount(n: nat)
    requires n < 256
    ensures |UpTo(n)| == n && forall c :: c in UpTo(n) <==> 1 <= c as int <= n
  {
    if n > 0 {
      UpToCount(n - 1);
    }
  }

  lemma StarNexts(base: Table, s: SockId, n: nat)
    requires n < 256 && (base == map[] || base == map[[A] := {s}])
    ensures Nexts(Star(base, s, n), [A]) == UpTo(n) && |Nexts(Star(base, s, n), [A])| == n
  {
    StarKeys(base, s, n);
    UpToCount(n);
    var t := Star(base, s, n);
    forall c | c in UpTo(n) ensures c in Nexts(t, [A]) {
      assert [A, c] in t && [A] < [A, c];
    }
  }

  /** The next branch of the star loses the entry of "a" exactly if it is the ninth. */
  lemma StarLoses(base: Table, s: SockId, n: nat)
    requires n < 255 && (base == map[] || base == map[[A] := {s}])
    ensures LostBySub(Star(base, s, n), [A, (n + 1) as Byte]) == if [A] in base && n == SPARSE_MAX then {[A]} else {}
  {
    hide Star, Nexts, UpTo;
    StarKeys(base, s, n);
    StarNexts(base, s, n);
    UpToCount(n);
    var t, data := Star(base, s, n), [A, (n + 1) as Byte];
    assert [A] < data && data[1] !in UpTo(n);
    assert [A] in t <==> [A] in base;
    forall k | k in LostBySub(t, data) ensures k == [A] {
      assert |k| < 2;
    }
  }

  lemma StarGrows(base: Table, s: SockId, n: nat)
    requires n < 255 && (base == map[] || base == map[[A] := {s}])
    ensures LostBySub(Star(base, s, n), [A, (n + 1) as Byte]) == if [A] in base && n == SPARSE_MAX then {[A]} else {}
    ensures Added(Star(base, s, n), [A, (n + 1) as Byte], s) == Star(base, s, n + 1)
  {
    hide LostBySub;
    StarLoses(base, s, n);
    StarKeys(base, s, n);
    assert [A, (n + 1) as Byte] !in Star(base, s, n);
    OnlyOne(s);
  }

  /** As written: s subscribes to "a", and then to nine strings that go on from it with different
  characters. The ninth subscription makes a query for "a" find nothing. */
  method NinthBranchLosesEntry(s: SockId) returns (before: nat, after: nat, pub: seq<SockId>)
    ensures before == 1 && after == 0 && pub == []
  {
    hide Trie.Valid, Subs, Added, LostBySub, LostByUnsub, Star;
    var trie := new Trie(false);
    ghost var base: Table := map[[A] := {s}];
    FirstOnly(s);
    Perform(trie, Sub([A], s));
    StarNone(base, s);
    for n := 0 to SPARSE_MAX
      invariant !trie.carry && trie.Valid() && trie.Contents() == Star(base, s, n)
      invariant fresh(trie) && fresh(trie.st.nodes.Values)
    {
      StarGrows(base, s, n);
      assert Star(base, s, n) - {} == Star(base, s, n);
      Perform(trie, Sub([A, (n + 1) as Byte], s));
    }
    StarKeys(base, s, SPARSE_MAX);
    before := trie.Match([A]);
    StarGrows(base, s, SPARSE_MAX);
    Perform(trie, Sub([A, 9], s));
    StarCut(base, s);
    ghost var t := trie.Contents();
    pub, after := Query(trie, [A], t);
    SomeMember(pub);
  }

  lemma FirstOnly(s: SockId)
    ensures ApplyAs(false, map[], Sub([A], s)) == map[[A] := {s}]
  {
    var none: Table := map[];
    assert none - LostBySub(none, [A]) == none;
    OnlyOne(s);
  }

  lemma OnlyOne(s: SockId)
    ensures var none: set<SockId> := {}; none + {s} == {s}
  {
  }

  lemma StarNone(base: Table, s: SockId)
    ensures Star(base, s, 0) == base
  {
  }

  /** After the loss only longer strings are left. */
  lemma StarCut(base: Table, s: SockId)
    requires base == map[[A] := {s}]
    ensures forall k :: k in Added(Star(base, s, SPARSE_MAX) - {[A]}, [A, 9], s) ==> !(k <= [A])
  {
    StarKeys(base, s, SPARSE_MAX);
    forall k | k in Added(Star(base, s, SPARSE_MAX) - {[A]}, [A, 9], s) ensures |k| == 2 {
    }
  }

  /** As written: s subscribes to nine strings that go on from "a" and then to "a". Giving up one of
  the nine makes a query for "a" find nothing. */
  method NinthBranchGoneLosesEntry(s: SockId) returns (before: nat, after: nat, pub: seq<SockId>)
    ensures before == 1 && after == 0 && pub == []
  {
    hide Trie.Valid, Subs, Added, Removed, LostBySub, LostByUnsub, Star;
    var trie := new Trie(false);
    StarNone(map[], s);
    for n := 0 to SPARSE_MAX + 1
      invariant !trie.carry && trie.Valid() && trie.Contents() == Star(map[], s, n)
      invariant fresh(trie) && fresh(trie.st.nodes.Values)
    {
      StarGrows(map[], s, n);
      assert Star(map[], s, n) - {} == Star(map[], s, n);
      Perform(trie, Sub([A, (n + 1) as Byte], s));
    }
    StarTop(s);
    Perform(trie, Sub([A], s));
    StarKeys(map[[A] := {s}], s, SPARSE_MAX + 1);
    before := trie.Match([A]);
    StarShrinks(s);
    Perform(trie, Unsub([A, 9], s));
    ghost var t := trie.Contents();
    pub, after := Query(trie, [A], t);
    SomeMember(pub);
  }

  lemma StarTop(s: SockId)
    ensures ApplyAs(false, Star(map[], s, SPARSE_MAX + 1), Sub([A], s)) == Star(map[[A] := {s}], s, SPARSE_MAX + 1)
  {
    StarKeys(map[], s, SPARSE_MAX + 1);
    StarKeys(map[[A] := {s}], s, SPARSE_MAX + 1);
    var t := Star(map[], s, SPARSE_MAX + 1);
    forall k | k in t ensures !(k < [A]) {
      assert |k| == 2;
    }
    assert LostBySub(t, [A]) == {};
    assert t - {} == t;
    OnlyOne(s);
    var u := Added(t, [A], s);
    forall k | k in u ensures u[k] == {s} {
    }
    assert u == Star(map[[A] := {s}], s, SPARSE_MAX + 1);
  }

  lemma SomeMember(pub: seq<SockId>)
    ensures pub == [] || exists s :: s in pub
  {
    if pub != [] {
      assert pub[0] in pub;
    }
  }

  lemma NinthAlone(s: SockId)
    ensures var t := Star(map[[A] := {s}], s, SPARSE_MAX + 1); [A] in LostByUnsub(t, [A, 9], s)
  {
    hide Star, Nexts, LostByUnsub;
    var base: Table := map[[A] := {s}];
    StarKeys(base, s, SPARSE_MAX + 1);
    StarNexts(base, s, SPARSE_MAX + 1);
    var t := Star(base, s, SPARSE_MAX + 1);
    forall m | m in t && Via([A], 9, m) ensures m == [A, 9] && t[m] == {s} {
      assert |m| == 2;
    }
    assert [A] in t;
    IsLost(t, [A], [A, 9], s);
  }

  lemma IsLost(t: Table, k: Key, data: Key, s: SockId)
    requires k in t && k < data && |Nexts(t, k)| == SPARSE_MAX + 1
    requires forall m :: m in t && Via(k, data[|k|], m) ==> m == data && t[m] == {s}
    ensures k in LostByUnsub(t, data, s)
  {
    hide Nexts;
  }

  lemma StarShrinks(s: SockId)
    ensures var t := Star(map[[A] := {s}], s, SPARSE_MAX + 1);
      && Listed(t, [A, 9], s)
      && forall k :: k in Removed(t, [A, 9], s) - LostByUnsub(t, [A, 9], s) ==> !(k <= [A])
  {
    hide Star, LostByUnsub;
    var base: Table := map[[A] := {s}];
    StarKeys(base, s, SPARSE_MAX + 1);
    NinthAlone(s);
    var t := Star(base, s, SPARSE_MAX + 1);
    assert [A, 9] in t;
    forall k | k in t && k <= [A] ensures k == [A] {
      assert k in base || |k| == 2;
    }
  }

  /** The root pointer is NULL if and only if nothing is subscribed. */
  lemma RootNull(trie: Trie)
    requires trie.Valid()
    ensures trie.root == null <==> trie.Contents() == map[]
  {
    hide NodesOk, IsTree, Hung, Rooted;
    if trie.root == null {
      EmptyTrie(trie.st, Closed);
    } else {
      var m := SomeSubBelow(trie.st, trie.root.path);
    }
  }

  function NonNull(kids: seq<Node?>): nat {
    if kids == [] then 0 else NonNull(kids[..|kids| - 1]) + if kids[|kids| - 1] != null then 1 else 0
  }

  ghost predicate Slots(min: Byte, kids: seq<Node?>, edges: Edges) {
    && min as int + |kids| <= 256
    && (forall j :: 0 <= j < |kids| ==> SlotOk(kids[j], (min as int + j) as Byte, edges))
    && (forall c :: c in edges ==> min as int <= c as int < min as int + |kids|)
  }

  lemma SlotsLess(min: Byte, kids: seq<Node?>, edges: Edges, c: Byte)
    requires Slots(min, kids, edges) && kids != [] && c as int == min as int + |kids| - 1
    ensures Slots(min, kids[..|kids| - 1], edges - {c})
    ensures c in edges <==> kids[|kids| - 1] != null
  {
    var n := |kids| - 1;
    assert SlotOk(kids[n], (min as int + n) as Byte, edges);
    forall j | 0 <= j < n
      ensures SlotOk(kids[..n][j], (min as int + j) as Byte, edges - {c})
    {
      assert SlotOk(kids[j], (min as int + j) as Byte, edges);
    }
  }

  lemma LessOne(edges: Edges, c: Byte)
    ensures |edges| == |edges - {c}| + if c in edges then 1 else 0
  {
    assert (edges - {c}).Keys == edges.Keys - {c};
    assert c !in edges ==> edges - {c} == edges;
  }

  lemma {:induction false} CountKids(min: Byte, kids: seq<Node?>, edges: Edges)
    requires Slots(min, kids, edges)
    ensures NonNull(kids) == |edges|
  {
    if kids == [] {
      assert edges.Keys == {};
    } else {
      var c := (min as int + |kids| - 1) as Byte;
      SlotsLess(min, kids, edges, c);
      LessOne(edges, c);
      CountKids(min, kids[..|kids| - 1], edges - {c});
    }
  }

  /** The shape of every node of a trie in order. */
  lemma NodeShape(trie: Trie, n: Node)
    requires trie.Valid() && trie.Has(n)
    ensures |n.prefix| <= 5 && n.refcount == |n.sockids| && Distinct(n.sockids)
    ensures n.typ <= 8 ==> |n.sparse| == |n.kids| == n.typ && Distinct(n.sparse) && null !in n.kids
    ensures n.typ > 8 ==> n.typ == 9 && n.nbr >= 9 && n.nbr == NonNull(n.kids)
    ensures n.typ > 8 ==> |n.kids| == (n.max as int - n.min as int) + 1 && n.kids[0] != null && n.kids[|n.kids| - 1] != null
    ensures n.typ == 0 ==> n.refcount > 0
  {
    hide Good, KidsOf;
    trie.AtNode(n, Closed, {});
    StillReferenced(trie, n);
    var v, edges := n.View(), trie.st.shape[n.path];
    Trie.NoKids(v, edges);
    if n.typ == DENSE_TYPE {
      DenseFull(v, edges);
    } else {
      SparseFull(v, edges);
    }
  }

  lemma StillReferenced(trie: Trie, n: Node)
    requires trie.Valid() && trie.Has(n)
    ensures trie.st.shape[n.path] == map[] ==> n.refcount > 0
  {
    hide IsTree, Hung, RootOk, Fields, KidsIn;
    assert NodeOk(trie.st, n.path, HoleIn(Closed, n.path), n.path in {});
    assert n.View() == trie.st.views[n.path];
  }

  lemma DenseFull(v: NodeView, edges: Edges)
    requires KidsOf(v, edges, NoHole) && v.typ == DENSE_TYPE
    ensures v.nbr >= 9 && v.nbr == NonNull(v.kids)
    ensures |v.kids| == (v.max as int - v.min as int) + 1 && v.kids[0] != null && v.kids[|v.kids| - 1] != null
  {
    CountKids(v.min, v.kids, edges);
    assert SlotOk(v.kids[0], v.min, edges) && SlotOk(v.kids[|v.kids| - 1], v.max, edges);
  }

  lemma SparseFull(v: NodeView, edges: Edges)
    requires KidsOf(v, edges, NoHole) && v.typ != DENSE_TYPE
    ensures v.typ <= SPARSE_MAX && |v.sparse| == |v.kids| == v.typ && Distinct(v.sparse) && null !in v.kids
  {
    forall i | 0 <= i < |v.kids|
      ensures v.kids[i] != null
    {
      assert SlotOk(v.kids[i], v.sparse[i], edges) && v.sparse[i] in edges;
    }
  }
}
