/** The tree skeleton of the subscription trie, as a value.

Every node of the trie is identified by the full string it stands for (all the prefixes
and branch characters from the root down to and including its own prefix).  Splitting and
compacting nodes move characters between prefixes but never change these strings, so the
whole tree is described by one flat map: node string -> (branch character -> child string).
The lemmas below say what each kind of surgery does to that map. */
module TrieShape {
  newtype Byte = x: int | 0 <= x < 256
  type Key = seq<Byte>
  type Edges = map<Byte, Key>
  type Shape = map<Key, Edges>

  /** n is longer than k and continues it with the character c. */
  ghost predicate Via(k: Key, c: Byte, n: Key) {
    k < n && n[|k|] == c
  }

  /** An edge leads to a node of the trie, whose string extends the edge's own. */
  ghost predicate Linked(s: Shape) {
    forall k, c {:trigger s[k][c]} :: k in s && c in s[k] ==> Via(k, c, s[k][c]) && s[k][c] in s
  }

  /** Below a node, the way to any longer string goes through the edge of its next character. */
  ghost predicate Routed(s: Shape) {
    forall k, m :: k in s && m in s && k < m ==> m[|k|] in s[k] && s[k][m[|k|]] <= m
  }

  ghost predicate IsTree(s: Shape) {
    Linked(s) && Routed(s)
  }

  ghost predicate Rooted(s: Shape, r: Key) {
    r in s && forall k :: k in s ==> r <= k
  }

  /** Two strings with a common extension are comparable. */
  lemma Comparable(a: Key, b: Key, n: Key)
    requires a <= n && b <= n
    ensures a <= b || b <= a
    ensures |a| < |b| ==> a < b && b[|a|] == n[|a|]
    ensures |a| == |b| ==> a == b
  {
  }

  lemma ViaPrefix(k: Key, c: Byte, n: Key, q: Key)
    requires Via(k, c, n) && Via(k, c, q)
    ensures n[..|k| + 1] == q[..|k| + 1]
  {
    forall i | 0 <= i < |k| + 1
      ensures n[i] == q[i]
    {
      if i < |k| { assert n[i] == k[i] == q[i]; }
    }
  }

  lemma LongerEdge(s: Shape, k: Key, c: Byte)
    requires IsTree(s) && k in s && c in s[k]
    ensures k != s[k][c] && s[k][c] in s && Via(k, c, s[k][c])
  {
  }

  /** Between two prefixes of q, the way down is the edge of q's next character. */
  lemma OnTheWay(s: Shape, k: Key, q: Key, m: Key)
    requires IsTree(s) && k in s && m in s && k < q && m <= q && |m| > |k|
    ensures q[|k|] in s[k] && s[k][q[|k|]] <= m
  {
    assert k < m && m[|k|] == q[|k|];
  }

  ghost predicate RoutedAt(s: Shape, k: Key, m: Key)
    requires k in s
  {
    k < m ==> m[|k|] in s[k] && s[k][m[|k|]] <= m
  }

  lemma RoutedFrom(s: Shape)
    requires forall k, m :: k in s && m in s ==> RoutedAt(s, k, m)
    ensures Routed(s)
  {
    forall k, m | k in s && m in s && k < m
      ensures m[|k|] in s[k] && s[k][m[|k|]] <= m
    {
      assert RoutedAt(s, k, m);
    }
  }

  /** A new leaf n at the end of a free branch. */
  lemma AddLeaf(s: Shape, k: Key, c: Byte, n: Key)
    requires IsTree(s) && k in s && c !in s[k] && Via(k, c, n)
    ensures n !in s
    ensures IsTree(s[k := s[k][c := n]][n := map[]])
  {
    var t := s[k := s[k][c := n]][n := map[]];
    forall a, b | a in t && b in t
      ensures RoutedAt(t, a, b)
    {
      if a < b {
        if b == n {
          Comparable(a, k, n);
        } else if a == n {
          assert false;
        }
      }
    }
    RoutedFrom(t);
  }

  /** A node that lies on the way down an edge lies at or below the edge's target. */
  lemma BelowEdge(s: Shape, k: Key, c: Byte, b: Key)
    requires IsTree(s) && k in s && c in s[k] && b in s && Via(k, c, b)
    ensures s[k][c] <= b
  {
  }

  /** A new node p in the middle of an edge. */
  lemma SplitEdge(s: Shape, k: Key, c: Byte, p: Key)
    requires IsTree(s) && k in s && c in s[k] && Via(k, c, p) && p < s[k][c]
    ensures p !in s
    ensures IsTree(s[k := s[k][c := p]][p := map[s[k][c][|p|] := s[k][c]]])
  {
    var ch := s[k][c];
    var t := s[k := s[k][c := p]][p := map[ch[|p|] := ch]];
    if p in s { BelowEdge(s, k, c, p); }
    forall a, b | a in t && b in t
      ensures RoutedAt(t, a, b)
    {
      if a < b {
        if b == p {
          Comparable(a, k, p);
          if |a| > |k| { BelowEdge(s, k, c, a); }
        } else if a == p {
          BelowEdge(s, k, c, b);
        } else {
          assert RoutedAt(s, a, b);
        }
      }
    }
    RoutedFrom(t);
  }

  /** A new node p above the root. */
  lemma SplitRoot(s: Shape, r: Key, p: Key)
    requires IsTree(s) && Rooted(s, r) && p < r
    ensures p !in s
    ensures IsTree(s[p := map[r[|p|] := r]]) && Rooted(s[p := map[r[|p|] := r]], p)
  {
    var t := s[p := map[r[|p|] := r]];
    forall a, b | a in t && b in t
      ensures RoutedAt(t, a, b)
    {
      if a < b && a != p { assert RoutedAt(s, a, b); }
    }
    RoutedFrom(t);
  }

  /** A node has one parent edge. */
  lemma OneParent(s: Shape, a: Key, d: Byte, k: Key, c: Byte)
    requires IsTree(s) && a in s && d in s[a] && k in s && c in s[k] && s[a][d] == s[k][c]
    ensures a == k && d == c
  {
    Comparable(a, k, s[a][d]);
    Comparable(k, a, s[a][d]);
  }

  lemma LinkedFrom(s: Shape, t: Shape, k: Key, c: Byte)
    requires IsTree(s) && k in s && c in s[k]
    requires t.Keys == s.Keys - {s[k][c]} && k in t
    requires forall a :: a in t && a != k ==> t[a] == s[a]
    requires forall d :: d in t[k] && d != c ==> d in s[k] && t[k][d] == s[k][d]
    requires c in t[k] ==> Via(k, c, t[k][c]) && t[k][c] in t
    ensures Linked(t)
  {
    forall a, d | a in t && d in t[a]
      ensures Via(a, d, t[a][d]) && t[a][d] in t
    {
      if !(a == k && d == c) {
        assert s[a][d] == t[a][d];
        if s[a][d] == s[k][c] { OneParent(s, a, d, k, c); }
      }
    }
  }

  /** Replacing the edge (k, c) to n by what n had for edges keeps every route to other nodes. */
  lemma Reroute(s: Shape, k: Key, c: Byte, edges: Edges, a: Key, b: Key)
    requires k in s && c in s[k] && Via(k, c, s[k][c]) && s[k][c] in s
    requires a in s && b != s[k][c] && a != s[k][c]
    requires RoutedAt(s, a, b) && RoutedAt(s, s[k][c], b)
    requires forall d :: d != c ==> (d in edges <==> d in s[k]) && (d in edges ==> edges[d] == s[k][d])
    requires forall d :: d in s[s[k][c]] ==> c in edges && s[s[k][c]][d] == edges[c]
    ensures RoutedAt((s - {s[k][c]})[k := edges], a, b)
  {
  }

  lemma RerouteAll(s: Shape, k: Key, c: Byte, edges: Edges)
    requires IsTree(s) && k in s && c in s[k] && s[k][c] in s && Via(k, c, s[k][c])
    requires forall d :: d != c ==> (d in edges <==> d in s[k]) && (d in edges ==> edges[d] == s[k][d])
    requires forall d :: d in s[s[k][c]] ==> c in edges && s[s[k][c]][d] == edges[c]
    ensures Routed((s - {s[k][c]})[k := edges])
  {
    var n := s[k][c];
    var t := (s - {n})[k := edges];
    forall a, b | a in t && b in t
      ensures RoutedAt(t, a, b)
    {
      assert RoutedAt(s, a, b) && RoutedAt(s, n, b);
      Reroute(s, k, c, edges, a, b);
    }
    RoutedFrom(t);
  }

  /** The leaf at the end of an edge disappears together with the edge. */
  lemma CutLeaf(s: Shape, k: Key, c: Byte)
    requires IsTree(s) && k in s && c in s[k] && s[s[k][c]] == map[]
    ensures s[k][c] != k
    ensures IsTree((s - {s[k][c]})[k := s[k] - {c}])
  {
    hide Linked, Routed, Via;
    LongerEdge(s, k, c);
    var t := (s - {s[k][c]})[k := s[k] - {c}];
    LinkedFrom(s, t, k, c);
    RerouteAll(s, k, c, s[k] - {c});
  }

  lemma ViaOn(k: Key, c: Byte, n: Key, d: Byte, g: Key)
    requires Via(k, c, n) && Via(n, d, g)
    ensures Via(k, c, g)
  {
  }

  /** A node with a single edge disappears from the middle of a path. */
  lemma Bypass(s: Shape, k: Key, c: Byte, d: Byte)
    requires IsTree(s) && k in s && c in s[k] && s[s[k][c]].Keys == {d}
    ensures s[k][c] != k && d in s[s[k][c]] && s[s[k][c]][d] != s[k][c]
    ensures IsTree((s - {s[k][c]})[k := s[k][c := s[s[k][c]][d]]])
  {
    hide Linked, Routed, Via;
    var n := s[k][c];
    LongerEdge(s, k, c);
    assert d in s[n];
    LongerEdge(s, n, d);
    ViaOn(k, c, n, d, s[n][d]);
    LinkedFrom(s, (s - {n})[k := s[k][c := s[n][d]]], k, c);
    RerouteAll(s, k, c, s[k][c := s[n][d]]);
  }

  lemma Unroot(s: Shape, r: Key)
    requires IsTree(s) && Rooted(s, r)
    ensures IsTree(s - {r})
  {
    var t := s - {r};
    forall a, b | a in t && b in t
      ensures RoutedAt(t, a, b)
    {
      assert RoutedAt(s, a, b);
    }
    RoutedFrom(t);
    forall a, e | a in t && e in t[a]
      ensures Via(a, e, t[a][e]) && t[a][e] in t
    {
      assert r <= a;
    }
  }

  lemma BelowRoot(s: Shape, r: Key, d: Byte, m: Key)
    requires r in s && s[r].Keys == {d} && r <= m && m != r && RoutedAt(s, r, m)
    ensures d in s[r] && s[r][d] <= m
  {
  }

  /** A root with a single edge disappears, its child becoming the root. */
  lemma BypassRoot(s: Shape, r: Key, d: Byte)
    requires IsTree(s) && Rooted(s, r) && s[r].Keys == {d}
    ensures d in s[r] && IsTree(s - {r}) && Rooted(s - {r}, s[r][d])
  {
    Unroot(s, r);
    assert d in s[r];
    var g := s[r][d];
    assert Via(r, d, g) && g in s;
    forall m | m in s - {r}
      ensures g <= m
    {
      assert RoutedAt(s, r, m) by { assert Routed(s); }
      BelowRoot(s, r, d, m);
    }
  }
}
