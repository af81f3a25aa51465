/** One node of the subscription trie and what may be done to it alone (src/lib/trie.c,
include/trie.h).  A node knows its own prefix, its subscribers and its child array; the
array is either sparse (characters listed, at most eight) or dense (one slot for each
character from min to max, possibly empty). */
module TrieNode {
  import opened TrieShape

  type SockId = seq<Byte>

  const PREFIX_MAX := 5
  const SPARSE_MAX := 8
  const DENSE_TYPE := SPARSE_MAX + 1

  datatype Hole = NoHole | Hole(c: Byte)

  ghost predicate Distinct<T>(s: seq<T>) {
    forall i, j :: 0 <= i < j < |s| ==> s[i] != s[j]
  }

  /** The fields of a node, as a value. */
  datatype NodeView = NodeView(refcount: nat, sockids: seq<SockId>, prefix: Key, typ: nat,
                       sparse: seq<Byte>, min: Byte, max: Byte, nbr: nat, kids: seq<Node?>)

  /** The node's own data: a packed prefix that ends its string, and one reference for each
  distinct subscriber. */
  ghost predicate LabelOf(v: NodeView, path: Key) {
    && |v.prefix| <= PREFIX_MAX
    && |v.prefix| <= |path| && v.prefix == path[|path| - |v.prefix|..]
    && v.refcount == |v.sockids| && Distinct(v.sockids)
  }

  /** The child array holds exactly the given edges; a hole is a character that has a slot
  but, for the moment, no child. */
  ghost predicate KidsOf(v: NodeView, edges: Edges, hole: Hole) {
    && (hole.Hole? ==> hole.c !in edges)
    && v.typ <= DENSE_TYPE
    && if v.typ == DENSE_TYPE then
         && v.nbr == |edges| + (if hole.Hole? then 1 else 0) && v.nbr > SPARSE_MAX
         && DenseArray(v.min, v.max, v.kids, edges, hole)
       else
         v.typ == |v.sparse| && SparseArray(v.sparse, v.kids, edges, hole)
  }

  ghost function CharOf(v: NodeView, j: nat): Byte
    requires j < |v.kids|
    requires v.typ == DENSE_TYPE ==> v.min as int + j < 256
    requires v.typ != DENSE_TYPE ==> j < |v.sparse|
  {
    if v.typ == DENSE_TYPE then (v.min as int + j) as Byte else v.sparse[j]
  }

  ghost predicate CharHere(v: NodeView, j: nat, c: Byte) {
    if v.typ == DENSE_TYPE then v.min as int + j == c as int else j < |v.sparse| && v.sparse[j] == c
  }

  function RemoveAt<T>(s: seq<T>, i: nat): seq<T>
    requires i < |s|
  {
    s[..i] + s[i + 1..]
  }

  lemma RemovedAt<T>(s: seq<T>, i: nat)
    requires i < |s|
    ensures |RemoveAt(s, i)| == |s| - 1
    ensures forall a :: 0 <= a < |s| - 1 ==> RemoveAt(s, i)[a] == s[if a < i then a else a + 1]
    ensures forall x :: x in RemoveAt(s, i) ==> x in s
    ensures forall x :: x in s && x != s[i] ==> x in RemoveAt(s, i)
  {
    var r := RemoveAt(s, i);
    forall x | x in s && x != s[i]
      ensures x in r
    {
      var a :| 0 <= a < |s| && s[a] == x;
      assert r[if a < i then a else a - 1] == x;
    }
  }

  ghost predicate SlotOk(kid: Node?, c: Byte, edges: Edges) {
    if c in edges then kid != null && kid.path == edges[c] else kid == null
  }

  ghost predicate SparseArray(chars: seq<Byte>, kids: seq<Node?>, edges: Edges, hole: Hole) {
    && |chars| == |kids| <= SPARSE_MAX
    && |chars| == |edges| + (if hole.Hole? then 1 else 0)
    && Distinct(chars)
    && (forall i :: 0 <= i < |kids| ==> SlotOk(kids[i], chars[i], edges))
    && (forall i :: 0 <= i < |chars| ==> chars[i] in edges || hole == Hole(chars[i]))
    && (forall c :: c in edges ==> c in chars)
    && (hole.Hole? ==> hole.c in chars)
  }

  ghost predicate DenseArray(min: Byte, max: Byte, kids: seq<Node?>, edges: Edges, hole: Hole) {
    && min <= max && |kids| == (max - min) as int + 1
    && (forall j :: 0 <= j < |kids| ==> SlotOk(kids[j], (min as int + j) as Byte, edges))
    && (forall c :: c in edges ==> min <= c <= max)
    && (min in edges || hole == Hole(min))
    && (max in edges || hole == Hole(max))
    && (hole.Hole? ==> min <= hole.c <= max)
  }

  lemma SlotAt(min: Byte, max: Byte, kids: seq<Node?>, edges: Edges, hole: Hole, j: nat)
    requires DenseArray(min, max, kids, edges, hole) && j < |kids|
    ensures min as int + j < 256 && SlotOk(kids[j], (min as int + j) as Byte, edges)
    ensures kids[j] != null ==> (min as int + j) as Byte in edges
  {
  }

  lemma InRange(min: Byte, max: Byte, kids: seq<Node?>, edges: Edges, hole: Hole, d: Byte)
    requires DenseArray(min, max, kids, edges, hole) && d in edges
    ensures min <= d <= max && |kids| == (max - min) as int + 1 && kids[(d - min) as int] != null
  {
  }

  /** The hole at the lower end goes, with the empty slots above it. */
  lemma DropMin(min: Byte, max: Byte, kids: seq<Node?>, edges: Edges, i: nat)
    requires DenseArray(min, max, kids, edges, Hole(min)) && min !in edges && |edges| > 0
    requires i <= |kids| && (forall a :: 0 <= a < i ==> kids[a] == null) && (i < |kids| ==> kids[i] != null)
    ensures i < |kids| && DenseArray((min as int + i) as Byte, max, kids[i..], edges, NoHole)
  {
    hide SlotOk;
    OtherEdge(edges);
    forall d | d in edges ensures min as int + i <= d as int && d <= max && |kids| == (max - min) as int + 1 && i < |kids| {
      InRange(min, max, kids, edges, Hole(min), d);
    }
    SlotAt(min, max, kids, edges, Hole(min), i);
    var lo := (min as int + i) as Byte;
    var ks := kids[i..];
    forall j | 0 <= j < |ks| ensures SlotOk(ks[j], (lo as int + j) as Byte, edges) {
      SlotAt(min, max, kids, edges, Hole(min), i + j);
    }
    assert max in edges;
  }

  /** The hole at the upper end goes, with the empty slots below it. */
  lemma DropMax(min: Byte, max: Byte, kids: seq<Node?>, edges: Edges, i: nat)
    requires DenseArray(min, max, kids, edges, Hole(max)) && max !in edges && |edges| > 0
    requires i < |kids| && (forall a :: i < a < |kids| ==> kids[a] == null) && (i != 0 ==> kids[i] != null)
    ensures DenseArray(min, (min as int + i) as Byte, kids[..i + 1], edges, NoHole)
  {
    hide SlotOk;
    OtherEdge(edges);
    forall d | d in edges ensures min <= d && d as int <= min as int + i {
      InRange(min, max, kids, edges, Hole(max), d);
    }
    SlotAt(min, max, kids, edges, Hole(max), i);
    var ks := kids[..i + 1];
    forall j | 0 <= j < |ks| ensures SlotOk(ks[j], (min as int + j) as Byte, edges) {
      SlotAt(min, max, kids, edges, Hole(max), j);
    }
    assert min in edges;
  }

  lemma SparseCount(chars: seq<Byte>, kids: seq<Node?>, edges: Edges, hole: Hole)
    requires SparseArray(chars, kids, edges, hole)
    ensures |chars| == |kids|
  {
  }

  lemma HoleListed(chars: seq<Byte>, kids: seq<Node?>, edges: Edges, c: Byte, index: nat)
    requires SparseArray(chars, kids, edges, Hole(c)) && index <= |chars| && c !in chars[..index]
    ensures index < |chars|
  {
    assert chars[..|chars|] == chars;
  }

  /** The slot of the hole is taken out. */
  lemma DropFound(chars: seq<Byte>, kids: seq<Node?>, edges: Edges, c: Byte, i: nat)
    requires SparseArray(chars, kids, edges, Hole(c)) && i < |chars| && chars[i] == c && c !in edges
    ensures SparseArray(RemoveAt(chars, i), RemoveAt(kids, i), edges, NoHole)
  {
    hide SlotOk;
    RemovedAt(chars, i);
    RemovedAt(kids, i);
    var cs, ks := RemoveAt(chars, i), RemoveAt(kids, i);
    forall a | 0 <= a < |ks| ensures SlotOk(ks[a], cs[a], edges) && cs[a] in edges {
      var b := if a < i then a else a + 1;
      assert SlotOk(kids[b], chars[b], edges) && chars[b] != c;
    }
  }

  lemma DropInside(min: Byte, max: Byte, kids: seq<Node?>, edges: Edges, c: Byte)
    requires DenseArray(min, max, kids, edges, Hole(c)) && c != min && c != max
    ensures DenseArray(min, max, kids, edges, NoHole)
  {
    hide SlotOk;
  }

  lemma FilledDense(min: Byte, max: Byte, kids: seq<Node?>, edges: Edges, hole: Hole, j: nat, child: Node, c: Byte)
    requires DenseArray(min, max, kids, edges, hole) && j < |kids| && c as int == min as int + j
    requires hole == Hole(c) || (hole == NoHole && c in edges)
    ensures DenseArray(min, max, kids[j := child], edges[c := child.path], NoHole)
  {
    var ks := kids[j := child];
    forall i | 0 <= i < |kids| ensures SlotOk(ks[i], (min as int + i) as Byte, edges[c := child.path]) {
      assert SlotOk(kids[i], (min as int + i) as Byte, edges);
    }
  }

  lemma FilledSparse(chars: seq<Byte>, kids: seq<Node?>, edges: Edges, hole: Hole, j: nat, child: Node, c: Byte)
    requires SparseArray(chars, kids, edges, hole) && j < |kids| && chars[j] == c
    requires hole == Hole(c) || (hole == NoHole && c in edges)
    requires hole.Hole? ==> hole.c !in edges
    ensures SparseArray(chars, kids[j := child], edges[c := child.path], NoHole)
  {
    var ks := kids[j := child];
    FilledCount(edges, c, child.path);
    forall i | 0 <= i < |kids| ensures SlotOk(ks[i], chars[i], edges[c := child.path]) {
      assert SlotOk(kids[i], chars[i], edges);
    }
  }

  lemma DenseEnds(min: Byte, max: Byte, kids: seq<Node?>, edges: Edges, hole: Hole)
    requires DenseArray(min, max, kids, edges, hole)
    ensures min <= max && |kids| == (max - min) as int + 1
  {
  }

  lemma FilledCount(edges: Edges, c: Byte, p: Key)
    ensures |edges[c := p]| == |edges| + (if c in edges then 0 else 1)
  {
    if c in edges {
      assert edges[c := p].Keys == edges.Keys;
    } else {
      assert edges[c := p].Keys == edges.Keys + {c};
    }
  }

  class Node {
    var refcount: nat
    var typ: nat
    var prefix: Key
    var sockids: seq<SockId>
    var sparse: seq<Byte>
    var min: Byte
    var max: Byte
    var nbr: nat
    var kids: seq<Node?>
    /** The whole string the node stands for; it never changes. */
    ghost const path: Key

    constructor (prefix: Key, ghost path: Key)
      ensures this.path == path && this.prefix == prefix
      ensures refcount == 0 && sockids == [] && typ == 0 && sparse == [] && kids == []
    {
      this.refcount, this.typ, this.prefix, this.sockids := 0, 0, prefix, [];
      this.sparse, this.min, this.max, this.nbr, this.kids := [], 0, 0, 0, [];
      this.path := path;
    }

    ghost function View(): NodeView
      reads this
    {
      NodeView(refcount, sockids, prefix, typ, sparse, min, max, nbr, kids)
    }

    ghost predicate Kids(edges: Edges, hole: Hole)
      reads this
    {
      KidsOf(View(), edges, hole)
    }

    /** The character of a slot of the child array. */
    ghost function CharAt(j: nat): Byte
      reads this
      requires j < |kids|
      requires typ == DENSE_TYPE ==> min as int + j < 256
      requires typ != DENSE_TYPE ==> j < |sparse|
    {
      CharOf(View(), j)
    }

    /** Everything but the child array. */
    twostate predicate SameLabel()
      reads this
    {
      refcount == old(refcount) && sockids == old(sockids) && prefix == old(prefix)
    }

    // nn_node_check_prefix
    method CheckPrefix(data: Key) returns (pos: nat)
      ensures pos <= |prefix| && pos <= |data|
      ensures prefix[..pos] == data[..pos]
      ensures pos < |prefix| && pos < |data| ==> prefix[pos] != data[pos]
    {
      pos := 0;
      while pos != |prefix|
        invariant pos <= |prefix| && pos <= |data|
        invariant prefix[..pos] == data[..pos]
      {
        if pos == |data| || prefix[pos] != data[pos] {
          return;
        }
        pos := pos + 1;
      }
    }

    // nn_node_next: the index of the slot for c, or -1 when there is none
    method Next(c: Byte, ghost edges: Edges, ghost hole: Hole) returns (j: int)
      requires Kids(edges, hole)
      ensures -1 <= j < |kids|
      ensures j == -1 ==> c !in edges && hole != Hole(c)
      ensures j >= 0 ==> CharHere(View(), j, c) && SlotOk(kids[j], c, edges)
      ensures j >= 0 && typ != DENSE_TYPE && hole.NoHole? ==> c in edges
    {
      if typ == 0 {
        return -1;
      }
      if typ <= 8 {
        j := 0;
        while j != typ
          invariant 0 <= j <= typ
          invariant c !in sparse[..j]
        {
          if sparse[j] == c {
            return;
          }
          j := j + 1;
        }
        return -1;
      }
      if c < min || c > max {
        return -1;
      }
      return (c - min) as int;
    }

    // step 3, sparse array with room: src/lib/trie.c:394-406
    method AddSparse(c: Byte, ghost edges: Edges) returns (j: nat)
      requires typ < SPARSE_MAX && Kids(edges, NoHole) && c !in edges
      modifies this
      ensures Kids(edges, Hole(c)) && SameLabel()
      ensures kids == old(kids) + [null] && j == |old(kids)| && typ != DENSE_TYPE && CharAt(j) == c
    {
      j := typ;
      sparse := sparse + [c];
      kids := kids + [null];
      typ := typ + 1;
      assert sparse[j] == c;
    }

    // step 3, dense array: src/lib/trie.c:410-440
    method AddDense(c: Byte, ghost edges: Edges) returns (j: nat)
      requires typ == DENSE_TYPE && Kids(edges, NoHole) && c !in edges
      modifies this
      ensures Kids(edges, Hole(c)) && SameLabel()
      ensures forall x :: x in kids && x != null ==> x in old(kids)
      ensures j < |kids| && CharAt(j) == c
    {
      if c < min || c > max {
        var newMin := if min < c then min else c;
        var newMax := if max > c then max else c;
        if min != newMin {
          var inserted := (min - newMin) as int;
          kids := seq(inserted, _ => null) + kids;
        } else {
          kids := kids + seq((newMax - max) as int, _ => null);
        }
        min := newMin;
        max := newMax;
      }
      nbr := nbr + 1;
      j := (c - min) as int;
    }

    method SparseRange(c: Byte, ghost edges: Edges) returns (lo: Byte, hi: Byte)
      requires typ != DENSE_TYPE && Kids(edges, NoHole)
      ensures lo <= c <= hi && forall d :: d in edges ==> lo <= d <= hi
      ensures (lo == c || lo in edges) && (hi == c || hi in edges)
      ensures |edges| == typ
    {
      lo, hi := 255, 0;
      for i := 0 to typ
        invariant forall a :: 0 <= a < i ==> lo <= sparse[a] <= hi
        invariant lo == 255 || lo in sparse
        invariant hi == 0 || hi in sparse
      {
        var c2 := sparse[i];
        lo := if lo < c2 then lo else c2;
        hi := if hi > c2 then hi else c2;
      }
      lo := if lo < c then lo else c;
      hi := if hi > c then hi else c;
    }

    /** The sparse array spread over one slot for each character of a range. */
    method Spread(lo: Byte, hi: Byte, ghost c: Byte, ghost edges: Edges) returns (ks: seq<Node?>)
      requires typ != DENSE_TYPE && Kids(edges, NoHole)
      requires lo <= c <= hi && forall d :: d in edges ==> lo <= d <= hi
      requires (lo == c || lo in edges) && (hi == c || hi in edges)
      ensures DenseArray(lo, hi, ks, edges, Hole(c))
      ensures forall x :: x in ks && x != null ==> x in kids
    {
      ks := seq((hi - lo) as int + 1, _ => null);
      for i := 0 to typ
        invariant |ks| == (hi - lo) as int + 1
        invariant forall b :: 0 <= b < |ks| && ks[b] != null ==> SlotOk(ks[b], (lo as int + b) as Byte, edges)
        invariant forall a :: 0 <= a < i ==> ks[(sparse[a] - lo) as int] != null
        invariant forall x :: x in ks && x != null ==> x in kids
      {
        var at := (sparse[i] - lo) as int;
        assert SlotOk(kids[i], sparse[i], edges) && sparse[i] in edges;
        ks := ks[at := kids[i]];
      }
      forall b | 0 <= b < |ks|
        ensures SlotOk(ks[b], (lo as int + b) as Byte, edges)
      {
        var d := (lo as int + b) as Byte;
        if d in edges {
          var a :| 0 <= a < |sparse| && sparse[a] == d;
          assert ks[(sparse[a] - lo) as int] != null;
        }
      }
    }

    // step 3, sparse array that is full: src/lib/trie.c:444-483
    method ToDense(c: Byte, carry: bool, ghost edges: Edges) returns (j: nat)
      requires typ == SPARSE_MAX && Kids(edges, NoHole) && c !in edges
      modifies this
      ensures typ == DENSE_TYPE && Kids(edges, Hole(c))
      ensures prefix == old(prefix)
      ensures refcount == (if carry then old(refcount) else 0)
      ensures sockids == (if carry then old(sockids) else [])
      ensures forall x :: x in kids && x != null ==> x in old(kids)
      ensures j < |kids| && CharAt(j) == c
    {
      hide SparseArray, DenseArray;
      var lo, hi := SparseRange(c, edges);
      var ks := Spread(lo, hi, c, edges);
      nbr := typ + 1;
      typ := DENSE_TYPE;
      min, max, kids := lo, hi, ks;
      if !carry {
        // as written, the fresh node starts without references or subscribers
        refcount, sockids := 0, [];
      }
      j := (c - min) as int;
    }

    /** Store a child in a slot: fills a hole, or replaces the child of an edge. */
    method SetKid(j: nat, child: Node, ghost c: Byte, ghost edges: Edges, ghost hole: Hole)
      requires Kids(edges, hole)
      requires j < |kids| && CharAt(j) == c
      requires hole == Hole(c) || (hole == NoHole && c in edges)
      modifies this`kids
      ensures Kids(edges[c := child.path], NoHole)
      ensures View() == old(View()).(kids := old(kids)[j := child])
    {
      hide DenseArray, SparseArray, SlotOk;
      if typ == DENSE_TYPE {
        DenseEnds(min, max, kids, edges, hole);
        FilledDense(min, max, kids, edges, hole, j, child, c);
      } else {
        FilledSparse(sparse, kids, edges, hole, j, child, c);
      }
      FilledCount(edges, c, child.path);
      kids := kids[j := child];
    }

    /** Null out the slot of an edge, which leaves a hole. */
    method ClearKid(j: nat, ghost c: Byte, ghost edges: Edges)
      requires Kids(edges, NoHole) && c in edges
      requires j < |kids| && CharAt(j) == c
      modifies this`kids
      ensures Kids(edges - {c}, Hole(c))
      ensures View() == old(View()).(kids := old(kids)[j := null])
    {
      kids := kids[j := null];
      assert |edges - {c}| == |edges| - 1;
    }

    // removal of a null child, sparse array: src/lib/trie.c:659-675
    method DropSparse(c: Byte, ghost edges: Edges)
      requires typ < DENSE_TYPE && Kids(edges, Hole(c))
      modifies this
      ensures typ < DENSE_TYPE && Kids(edges, NoHole) && SameLabel()
      ensures forall x :: x in kids && x != null ==> x in old(kids)
    {
      hide SparseArray, SlotOk, RemoveAt;
      SparseCount(sparse, kids, edges, Hole(c));
      var index := 0;
      while index != typ
        invariant 0 <= index <= typ
        invariant c !in sparse[..index]
      {
        if sparse[index] == c {
          break;
        }
        index := index + 1;
      }
      HoleListed(sparse, kids, edges, c, index);
      DropFound(sparse, kids, edges, c, index);
      RemovedAt(sparse, index);
      RemovedAt(kids, index);
      sparse := RemoveAt(sparse, index);
      kids := RemoveAt(kids, index);
      typ := typ - 1;
    }

    method FirstKid() returns (i: nat)
      requires min <= max && |kids| == (max - min) as int + 1
      ensures i <= |kids| && forall a :: 0 <= a < i ==> kids[a] == null
      ensures i < |kids| ==> kids[i] != null
    {
      i := 0;
      while i != max as int - min as int + 1
        invariant 0 <= i <= |kids|
        invariant forall a :: 0 <= a < i ==> kids[a] == null
      {
        if kids[i] != null {
          break;
        }
        i := i + 1;
      }
    }

    method LastKid() returns (i: nat)
      requires min <= max && |kids| == (max - min) as int + 1
      ensures i < |kids| && forall a :: i < a < |kids| ==> kids[a] == null
      ensures i != 0 ==> kids[i] != null
    {
      i := max as int - min as int;
      while i != 0
        invariant 0 <= i < |kids|
        invariant forall a :: i < a < |kids| ==> kids[a] == null
      {
        if kids[i] != null {
          break;
        }
        i := i - 1;
      }
    }

    // removal of a null child, dense array that stays dense: src/lib/trie.c:705-745
    method DropDense(c: Byte, ghost edges: Edges)
      requires typ == DENSE_TYPE && nbr > SPARSE_MAX + 1 && Kids(edges, Hole(c))
      modifies this
      ensures typ == DENSE_TYPE && Kids(edges, NoHole) && SameLabel()
      ensures forall x :: x in kids && x != null ==> x in old(kids)
    {
      hide DenseArray, SlotOk;
      DenseEnds(min, max, kids, edges, Hole(c));
      if c == min {
        var i := FirstKid();
        DropMin(min, max, kids, edges, i);
        kids := kids[i..];
        min := (i + min as int) as Byte;
        nbr := nbr - 1;
        return;
      }
      if c == max {
        var i := LastKid();
        DropMax(min, max, kids, edges, i);
        max := (i + min as int) as Byte;
        nbr := nbr - 1;
        kids := kids[..i + 1];
        return;
      }
      DropInside(min, max, kids, edges, c);
      nbr := nbr - 1;
    }

    /** The non-null slots of a dense array, in order. */
    method Gather(ghost edges: Edges, ghost hole: Hole) returns (chars: seq<Byte>, ks: seq<Node?>)
      requires typ == DENSE_TYPE && nbr == SPARSE_MAX + 1 && hole.Hole? && Kids(edges, hole)
      ensures SparseArray(chars, ks, edges, NoHole) && |ks| == |edges|
      ensures forall x :: x in ks ==> x in kids
    {
      hide SparseArray, Gathered;
      chars, ks := [], [];
      var i := 0;
      GatherStart(edges, min as int);
      while i != max as int - min as int + 1
        invariant 0 <= i <= |kids|
        invariant Gathered(chars, ks, edges, min as int + i)
        invariant forall x :: x in ks ==> x in kids
      {
        var ch2 := kids[i];
        GatherStep(chars, ks, edges, (min as int + i) as Byte, ch2);
        if ch2 != null {
          chars := chars + [(i + min as int) as Byte];
          ks := ks + [ch2];
        }
        i := i + 1;
      }
      GatherDone(chars, ks, edges, max as int + 1);
    }

    // removal of a null child, dense array down to eight children: src/lib/trie.c:747-769
    method ToSparse(carry: bool, ghost c: Byte, ghost edges: Edges)
      requires typ == DENSE_TYPE && nbr == SPARSE_MAX + 1 && Kids(edges, Hole(c))
      modifies this
      ensures typ == SPARSE_MAX && Kids(edges, NoHole)
      ensures prefix == old(prefix)
      ensures refcount == (if carry then old(refcount) else 0)
      ensures sockids == (if carry then old(sockids) else [])
      ensures forall x :: x in kids && x != null ==> x in old(kids)
    {
      var chars, ks := Gather(edges, Hole(c));
      assert |chars| == SPARSE_MAX;
      hide SparseArray, DenseArray;
      typ := SPARSE_MAX;
      sparse, kids := chars, ks;
      if !carry {
        // as written, the new node's reference count is zero and its list is never set
        refcount, sockids := 0, [];
      }
    }
  }

  /** chars and ks are the children for the characters below lim. */
  ghost predicate Gathered(chars: seq<Byte>, ks: seq<Node?>, edges: Edges, lim: int) {
    && |chars| == |ks| && Distinct(chars)
    && (forall a :: 0 <= a < |chars| ==> chars[a] in edges && chars[a] as int < lim && SlotOk(ks[a], chars[a], edges))
    && (forall d :: d in edges && d as int < lim ==> d in chars)
  }

  lemma GatherStart(edges: Edges, lim: int)
    requires forall d :: d in edges ==> lim <= d as int
    ensures Gathered([], [], edges, lim)
  {
  }

  lemma GatherStep(chars: seq<Byte>, ks: seq<Node?>, edges: Edges, c: Byte, kid: Node?)
    requires Gathered(chars, ks, edges, c as int) && SlotOk(kid, c, edges)
    ensures kid == null ==> Gathered(chars, ks, edges, c as int + 1)
    ensures kid != null ==> Gathered(chars + [c], ks + [kid], edges, c as int + 1)
  {
  }

  lemma GatherDone(chars: seq<Byte>, ks: seq<Node?>, edges: Edges, lim: int)
    requires Gathered(chars, ks, edges, lim) && |edges| == SPARSE_MAX
    requires forall d :: d in edges ==> d as int < lim
    ensures SparseArray(chars, ks, edges, NoHole) && |chars| == |ks| == |edges|
  {
    DistinctCount(chars, edges);
  }

  lemma {:induction false} DistinctCount(s: seq<Byte>, edges: Edges)
    requires Distinct(s) && forall d :: d in s <==> d in edges
    ensures |s| == |edges|
  {
    if s == [] {
      assert edges.Keys == {};
    } else {
      var c := s[|s| - 1];
      assert forall d :: d in s[..|s| - 1] <==> d in edges - {c} by {
        assert s == s[..|s| - 1] + [c];
      }
      DistinctCount(s[..|s| - 1], edges - {c});
      assert (edges - {c}).Keys == edges.Keys - {c};
    }
  }

  lemma OtherEdge(edges: Edges)
    requires |edges| > 0
    ensures exists d :: d in edges
  {
    assert edges.Keys != {};
  }
}
