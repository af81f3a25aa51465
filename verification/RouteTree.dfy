/** The tree of brokers: a fixed root, and a parent for every other broker. */
module RouteTree {
  import opened Broker

  datatype Topo = Topo(brokers: seq<Sock>, root: Sock, parent: map<Sock, Sock>, depth: map<Sock, nat>, height: nat)

  /** brokers lists every broker once; depths grow by one along every edge and stay within height. */
  ghost predicate WellFormed(t: Topo) {
    && (forall i, j :: 0 <= i < j < |t.brokers| ==> t.brokers[i] != t.brokers[j])
    && (forall b :: b in t.depth <==> b in t.brokers)
    && (forall b :: b in t.depth ==> t.depth[b] <= t.height)
    && t.root in t.brokers && t.root !in t.parent && t.depth[t.root] == 0
    && (forall b :: b in t.brokers && b != t.root ==> b in t.parent)
    && (forall b :: b in t.parent ==> b in t.brokers && t.parent[b] in t.brokers && t.depth[b] == t.depth[t.parent[b]] + 1)
  }

  /** Broker a is b or lies above it. */
  ghost predicate Above(t: Topo, a: Sock, b: Sock)
    requires WellFormed(t)
    decreases if b in t.depth then t.depth[b] else 0
  {
    a == b || (b in t.parent && Above(t, a, t.parent[b]))
  }

  function Children(t: Topo, p: Sock): set<Sock> {
    set c | c in t.parent && t.parent[c] == p
  }

  lemma {:induction false} AboveDepth(t: Topo, a: Sock, b: Sock)
    requires WellFormed(t) && Above(t, a, b) && b in t.brokers
    ensures a in t.brokers && t.depth[a] <= t.depth[b]
    ensures a != b ==> t.depth[a] < t.depth[b]
    decreases t.depth[b]
  {
    if a != b {
      AboveDepth(t, a, t.parent[b]);
    }
  }

  lemma {:induction false} AboveUp(t: Topo, a: Sock, b: Sock)
    requires WellFormed(t) && Above(t, a, b) && a in t.parent
    ensures Above(t, t.parent[a], b)
    decreases if b in t.depth then t.depth[b] else 0
  {
    if a == b {
      assert Above(t, t.parent[a], t.parent[b]);
    } else {
      AboveUp(t, a, t.parent[b]);
    }
  }

  /** No broker lies below two siblings. */
  lemma {:induction false} OneSibling(t: Topo, a: Sock, c: Sock, b: Sock)
    requires WellFormed(t) && a in t.parent && c in t.parent && t.parent[a] == t.parent[c]
    requires Above(t, a, b) && Above(t, c, b) && b in t.brokers
    ensures a == c
    decreases t.depth[b]
  {
    if a == b || c == b {
      AboveDepth(t, a, b);
      AboveDepth(t, c, b);
    } else {
      OneSibling(t, a, c, t.parent[b]);
    }
  }

  lemma ParentOf(t: Topo, q: Sock)
    requires WellFormed(t) && q in t.parent
    ensures q in t.depth && t.parent[q] in t.depth && q != t.parent[q] && q != t.root
    ensures t.depth[q] == t.depth[t.parent[q]] + 1 <= t.height
  {
  }

  /** A broker does not lie below its child. */
  lemma NotBelowChild(t: Topo, c: Sock)
    requires WellFormed(t) && c in t.parent
    ensures !Above(t, c, t.parent[c])
  {
    if Above(t, c, t.parent[c]) {
      AboveDepth(t, c, t.parent[c]);
    }
  }

  lemma {:induction false} RootAbove(t: Topo, b: Sock)
    requires WellFormed(t) && b in t.brokers
    ensures Above(t, t.root, b)
    decreases t.depth[b]
  {
    if b != t.root {
      RootAbove(t, t.parent[b]);
    }
  }

  // ---- sums over the tree ----------------------------------------------------------------

  function Sum(qs: seq<Sock>, f: Sock -> nat): nat {
    if qs == [] then 0 else f(qs[0]) + Sum(qs[1..], f)
  }

  lemma {:induction false} SumSame(qs: seq<Sock>, f: Sock -> nat, g: Sock -> nat)
    requires forall q :: q in qs ==> f(q) == g(q)
    ensures Sum(qs, f) == Sum(qs, g)
  {
    if qs != [] {
      assert qs[0] in qs;
      SumSame(qs[1..], f, g);
    }
  }

  /** Changing one term changes the sum by as much. */
  lemma {:induction false} SumBump(qs: seq<Sock>, f: Sock -> nat, g: Sock -> nat, x: Sock)
    requires forall i, j :: 0 <= i < j < |qs| ==> qs[i] != qs[j]
    requires x in qs && forall q :: q in qs && q != x ==> f(q) == g(q)
    ensures Sum(qs, g) + f(x) == Sum(qs, f) + g(x)
  {
    if qs[0] == x {
      assert x !in qs[1..];
      SumSame(qs[1..], f, g);
    } else {
      SumBump(qs[1..], f, g, x);
    }
  }
}
