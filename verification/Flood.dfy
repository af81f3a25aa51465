/** How a publication spreads over the tree (s_cb_pub, s_on_subN_msg, s_on_subS_msg).  A broker
sends it north under its own identifier; what comes from the south goes back south to every child
under the identifier it came with, and the child it came from drops its own echo. */
module Flood {
  import opened Broker
  import opened RouteTree

  type Pub = nat

  type Tag = nat

  /** A copy on the link above a broker, on its way north from it or south to it. */
  datatype Copy = North(from: Sock, pub: Pub, path: Tag) | South(to: Sock, pub: Pub, path: Tag)

  /** Copies under way, which may arrive in any order, and the brokers that have handed a publication
  to their local clients. */
  datatype Sky = Sky(copies: seq<Copy>, done: seq<(Sock, Pub)>)

  /** The tree, the identifier of each broker, and the identifier that is nobody's. */
  datatype Scene = Scene(t: Topo, ids: map<Sock, Tag>, nobody: Tag)

  /** Siblings have distinct identifiers, and no broker has the null one. */
  ghost predicate Distinct(s: Scene) {
    && WellFormed(s.t)
    && (forall q :: q in s.t.depth ==> q in s.ids && s.ids[q] != s.nobody)
    && (forall q, c :: q in s.t.parent && c in s.t.parent && q != c && s.t.parent[q] == s.t.parent[c] ==> s.ids[q] != s.ids[c])
  }

  function ToNorth(s: Scene, b: Sock, p: Pub): seq<Copy>
    requires b in s.ids
  {
    if b in s.t.parent then [North(b, p, s.ids[b])] else []
  }

  /** One copy for each child of b among qs. */
  function ToSouth(t: Topo, qs: seq<Sock>, b: Sock, p: Pub, path: Tag): seq<Copy> {
    if qs == [] then []
    else (if qs[0] in t.parent && t.parent[qs[0]] == b then [South(qs[0], p, path)] else []) + ToSouth(t, qs[1..], b, p, path)
  }

  // s_cb_pub
  function Publish(s: Scene, w: Sky, b: Sock, p: Pub): Sky
    requires b in s.ids
  {
    Sky(w.copies + (ToNorth(s, b, p) + ToSouth(s.t, s.t.brokers, b, p, s.nobody)), w.done + [(b, p)])
  }

  function Without(w: Sky, i: nat): seq<Copy>
    requires i < |w.copies|
  {
    w.copies[..i] + w.copies[i + 1..]
  }

  // s_on_subS_msg and s_on_subN_msg
  function Arrive(s: Scene, w: Sky, i: nat): Sky
    requires i < |w.copies|
    requires forall q :: q in s.t.parent ==> s.t.parent[q] in s.ids
    requires w.copies[i].North? ==> w.copies[i].from in s.t.parent
    requires w.copies[i].South? ==> w.copies[i].to in s.ids
  {
    match w.copies[i]
    case North(q, p, path) =>
      var b := s.t.parent[q];
      Sky(Without(w, i) + (ToNorth(s, b, p) + ToSouth(s.t, s.t.brokers, b, p, path)), w.done + [(b, p)])
    case South(b, p, path) =>
      if path == s.ids[b] then Sky(Without(w, i), w.done)
      else Sky(Without(w, i) + ToSouth(s.t, s.t.brokers, b, p, s.nobody), w.done + [(b, p)])
  }

  // ---- coverage --------------------------------------------------------------------------

  function One(b: bool): nat { if b then 1 else 0 }

  /** Whether copy c will bring p to broker x: on its way south to the brokers below its end, unless
  that end drops it; on its way north to all the others. */
  ghost predicate Covers(s: Scene, c: Copy, x: Sock, p: Pub)
    requires WellFormed(s.t)
  {
    c.pub == p
    && match c
       case North(q, _, _) => !Above(s.t, q, x)
       case South(q, _, path) => Above(s.t, q, x) && q in s.ids && path != s.ids[q]
  }

  ghost function Coming(s: Scene, cs: seq<Copy>, x: Sock, p: Pub): nat
    requires WellFormed(s.t)
  {
    if cs == [] then 0 else One(Covers(s, cs[0], x, p)) + Coming(s, cs[1..], x, p)
  }

  ghost function Share(s: Scene, w: Sky, x: Sock, p: Pub): nat
    requires WellFormed(s.t)
  {
    Coming(s, w.copies, x, p) + multiset(w.done)[(x, p)]
  }

  lemma {:induction false} ComingPlus(s: Scene, cs: seq<Copy>, ds: seq<Copy>, x: Sock, p: Pub)
    requires WellFormed(s.t)
    ensures Coming(s, cs + ds, x, p) == Coming(s, cs, x, p) + Coming(s, ds, x, p)
  {
    hide WellFormed, Covers;
    if cs == [] {
      assert cs + ds == ds;
    } else {
      ComingPlus(s, cs[1..], ds, x, p);
      assert (cs + ds)[1..] == cs[1..] + ds;
    }
  }

  lemma ComingWithout(s: Scene, w: Sky, i: nat, x: Sock, p: Pub)
    requires WellFormed(s.t) && i < |w.copies|
    ensures Coming(s, w.copies, x, p) == Coming(s, Without(w, i), x, p) + One(Covers(s, w.copies[i], x, p))
  {
    hide WellFormed, Covers;
    ComingPlus(s, w.copies[..i], w.copies[i + 1..], x, p);
    ComingPlus(s, w.copies[..i], w.copies[i..], x, p);
    assert w.copies == w.copies[..i] + w.copies[i..];
    assert w.copies[i..][1..] == w.copies[i + 1..];
  }

  /** Some child of b among qs lies above x and does not drop the copy. */
  ghost predicate Reached(s: Scene, qs: seq<Sock>, b: Sock, path: Tag, x: Sock)
    requires WellFormed(s.t)
  {
    exists c :: c in qs && Via(s, b, path, x, c)
  }

  ghost predicate Via(s: Scene, b: Sock, path: Tag, x: Sock, c: Sock)
    requires WellFormed(s.t)
  {
    c in s.t.parent && s.t.parent[c] == b && Above(s.t, c, x) && c in s.ids && path != s.ids[c]
  }

  /** Copies to all children bring p once to whom they reach at all. */
  lemma {:induction false} SouthOnce(s: Scene, qs: seq<Sock>, b: Sock, p: Pub, path: Tag, x: Sock)
    requires WellFormed(s.t) && x in s.t.brokers
    requires forall i, j :: 0 <= i < j < |qs| ==> qs[i] != qs[j]
    ensures Coming(s, ToSouth(s.t, qs, b, p, path), x, p) == One(Reached(s, qs, b, path, x))
  {
    hide WellFormed, Above;
    if qs != [] {
      var rest := ToSouth(s.t, qs[1..], b, p, path);
      SouthOnce(s, qs[1..], b, p, path, x);
      if qs[0] in s.t.parent && s.t.parent[qs[0]] == b {
        var c := South(qs[0], p, path);
        assert ([c] + rest)[1..] == rest;
        assert Covers(s, c, x, p) <==> Via(s, b, path, x, qs[0]);
        OnceMore(s, qs, b, path, x);
      } else {
        assert [] + rest == rest;
        OnceMore(s, qs, b, path, x);
      }
    }
  }

  lemma OnceMore(s: Scene, qs: seq<Sock>, b: Sock, path: Tag, x: Sock)
    requires WellFormed(s.t) && x in s.t.brokers && qs != []
    requires forall i, j :: 0 <= i < j < |qs| ==> qs[i] != qs[j]
    ensures One(Reached(s, qs, b, path, x)) == One(Via(s, b, path, x, qs[0])) + One(Reached(s, qs[1..], b, path, x))
  {
    hide WellFormed, Above;
    assert forall c :: c in qs <==> c == qs[0] || c in qs[1..];
    if Via(s, b, path, x, qs[0]) {
      forall c | c in qs[1..] ensures !Via(s, b, path, x, c) {
        if Via(s, b, path, x, c) {
          OneSibling(s.t, qs[0], c, x);
        }
      }
    }
  }

  // ---- the tree --------------------------------------------------------------------------

  /** Below b, other than b itself, is below exactly one child of b. */
  lemma {:induction false} SomeChild(t: Topo, b: Sock, x: Sock) returns (c: Sock)
    requires WellFormed(t) && Above(t, b, x) && b != x && x in t.brokers
    ensures c in t.parent && t.parent[c] == b && Above(t, c, x) && c in t.brokers
    decreases if x in t.depth then t.depth[x] else 0
  {
    if t.parent[x] == b {
      c := x;
    } else {
      c := SomeChild(t, b, t.parent[x]);
    }
  }

  lemma ReachedBelow(s: Scene, b: Sock, x: Sock)
    requires Distinct(s) && x in s.t.brokers
    ensures Reached(s, s.t.brokers, b, s.nobody, x) <==> Above(s.t, b, x) && b != x
  {
    hide Above;
    if Above(s.t, b, x) && b != x {
      var c := SomeChild(s.t, b, x);
      assert Via(s, b, s.nobody, x, c);
    }
    if c :| c in s.t.brokers && Via(s, b, s.nobody, x, c) {
      AboveUp(s.t, c, x);
      NotBelowChild(s.t, c);
    }
  }

  lemma ReachedBeside(s: Scene, q: Sock, x: Sock)
    requires Distinct(s) && x in s.t.brokers && q in s.t.parent
    ensures Reached(s, s.t.brokers, s.t.parent[q], s.ids[q], x)
      <==> Above(s.t, s.t.parent[q], x) && s.t.parent[q] != x && !Above(s.t, q, x)
  {
    hide Above;
    var b := s.t.parent[q];
    if Above(s.t, b, x) && b != x && !Above(s.t, q, x) {
      var c := SomeChild(s.t, b, x);
      assert Via(s, b, s.ids[q], x, c);
    }
    if c :| c in s.t.brokers && Via(s, b, s.ids[q], x, c) {
      AboveUp(s.t, c, x);
      NotBelowChild(s.t, c);
      if Above(s.t, q, x) {
        OneSibling(s.t, q, c, x);
      }
    }
  }

  // ---- every step ------------------------------------------------------------------------

  ghost predicate CopyOk(s: Scene, c: Copy) {
    match c
    case North(q, _, path) => q in s.t.parent && q in s.ids && path == s.ids[q]
    case South(q, _, _) => q in s.t.parent
  }

  ghost predicate SkyOk(s: Scene, w: Sky) {
    forall c :: c in w.copies ==> CopyOk(s, c)
  }

  lemma {:induction false} SouthOk(s: Scene, qs: seq<Sock>, b: Sock, p: Pub, path: Tag)
    ensures forall c :: c in ToSouth(s.t, qs, b, p, path) ==> c.South? && c.to in s.t.parent && c.pub == p
  {
    if qs != [] {
      SouthOk(s, qs[1..], b, p, path);
    }
  }

  /** Copies of another publication bring nothing of p. */
  lemma {:induction false} OtherPub(s: Scene, cs: seq<Copy>, x: Sock, p: Pub)
    requires WellFormed(s.t) && forall c :: c in cs ==> c.pub != p
    ensures Coming(s, cs, x, p) == 0
  {
    hide WellFormed;
    if cs != [] {
      assert cs[0] in cs;
      OtherPub(s, cs[1..], x, p);
    }
  }

  /** What broker b sends, with a path that the children in between drop or not. */
  function Sent(s: Scene, b: Sock, north: bool, p: Pub, path: Tag): seq<Copy>
    requires b in s.ids
  {
    (if north then ToNorth(s, b, p) else []) + ToSouth(s.t, s.t.brokers, b, p, path)
  }

  lemma SentComing(s: Scene, b: Sock, north: bool, p: Pub, path: Tag, x: Sock, p': Pub)
    requires Distinct(s) && b in s.t.depth && x in s.t.brokers
    ensures Coming(s, Sent(s, b, north, p, path), x, p') ==
            if p' != p then 0 else One(north && !Above(s.t, b, x)) + One(Reached(s, s.t.brokers, b, path, x))
  {
    hide WellFormed, Above, Reached;
    var n := if north then ToNorth(s, b, p) else [];
    var d := ToSouth(s.t, s.t.brokers, b, p, path);
    SouthOk(s, s.t.brokers, b, p, path);
    if p' != p {
      OtherPub(s, n + d, x, p');
    } else {
      BrokersOnce(s.t);
      SouthOnce(s, s.t.brokers, b, p, path, x);
      ComingPlus(s, n, d, x, p);
      if north {
        NorthComing(s, b, p, x);
      }
    }
  }

  lemma BrokersOnce(t: Topo)
    requires WellFormed(t)
    ensures forall i, j :: 0 <= i < j < |t.brokers| ==> t.brokers[i] != t.brokers[j]
  {
  }

  lemma NorthComing(s: Scene, b: Sock, p: Pub, x: Sock)
    requires Distinct(s) && b in s.t.depth && x in s.t.brokers
    ensures Coming(s, ToNorth(s, b, p), x, p) == One(!Above(s.t, b, x))
  {
    hide WellFormed, Above;
    if b in s.t.parent {
      var c := North(b, p, s.ids[b]);
      assert Coming(s, [c], x, p) == One(Covers(s, c, x, p)) + Coming(s, [], x, p);
    } else {
      OnlyRoot(s.t, b);
      RootAbove(s.t, x);
    }
  }

  lemma OnlyRoot(t: Topo, b: Sock)
    requires WellFormed(t) && b in t.depth && b !in t.parent
    ensures b == t.root
  {
  }

  /** Publishing adds one share for everybody. */
  lemma PublishShares(s: Scene, w: Sky, b: Sock, p: Pub, x: Sock, p': Pub)
    requires Distinct(s) && SkyOk(s, w) && b in s.t.depth && x in s.t.brokers
    ensures SkyOk(s, Publish(s, w, b, p))
    ensures Share(s, Publish(s, w, b, p), x, p') == Share(s, w, x, p') + One(p' == p)
  {
    hide WellFormed, Above, Reached, Covers;
    SouthOk(s, s.t.brokers, b, p, s.nobody);
    ComingPlus(s, w.copies, Sent(s, b, true, p, s.nobody), x, p');
    SentComing(s, b, true, p, s.nobody, x, p');
    ReachedBelow(s, b, x);
    AboveSelf(s.t, b);
  }

  lemma AboveSelf(t: Topo, b: Sock)
    requires WellFormed(t)
    ensures Above(t, b, b)
  {
  }

  ghost predicate Arrives(s: Scene, w: Sky, i: nat)
    requires Distinct(s)
  {
    i < |w.copies| && CopyOk(s, w.copies[i])
  }

  lemma InScene(s: Scene)
    requires Distinct(s)
    ensures forall q :: q in s.t.parent ==> s.t.parent[q] in s.ids && s.t.parent[q] in s.t.depth && q in s.ids && q in s.t.depth
  {
  }

  ghost function Arrived(s: Scene, w: Sky, i: nat): Sky
    requires Distinct(s) && Arrives(s, w, i)
  {
    InScene(s);
    Arrive(s, w, i)
  }

  /** The broker at which copy c is handed on, unless it drops the copy. */
  ghost predicate Dropped(s: Scene, c: Copy) {
    c.South? && c.to in s.ids && c.path == s.ids[c.to]
  }

  ghost function End(s: Scene, c: Copy): Sock
    requires CopyOk(s, c)
  {
    if c.North? then s.t.parent[c.from] else c.to
  }

  /** An arrival takes from what is coming to each broker exactly the delivery it makes. */
  lemma ArriveComing(s: Scene, w: Sky, i: nat, x: Sock, p: Pub)
    requires Distinct(s) && Arrives(s, w, i) && x in s.t.brokers
    ensures var c := w.copies[i];
      Coming(s, w.copies, x, p) == Coming(s, Arrived(s, w, i).copies, x, p) + One(c.pub == p && !Dropped(s, c) && x == End(s, c))
  {
    hide WellFormed, Above, Reached;
    InScene(s);
    var c := w.copies[i];
    ComingWithout(s, w, i, x, p);
    if !Dropped(s, c) {
      var b := End(s, c);
      var out := Sent(s, b, c.North?, c.pub, if c.North? then c.path else s.nobody);
      ComingPlus(s, Without(w, i), out, x, p);
      SentComing(s, b, c.North?, c.pub, if c.North? then c.path else s.nobody, x, p);
      AboveSelf(s.t, b);
      if c.North? {
        ReachedBeside(s, c.from, x);
        NotBelowChild(s.t, c.from);
        if Above(s.t, c.from, x) {
          AboveUp(s.t, c.from, x);
        }
        assert Arrived(s, w, i).copies == Without(w, i) + out;
      } else {
        ReachedBelow(s, b, x);
        assert out == ToSouth(s.t, s.t.brokers, b, c.pub, s.nobody);
      }
    }
  }

  lemma ArriveShares(s: Scene, w: Sky, i: nat, x: Sock, p: Pub)
    requires Distinct(s) && SkyOk(s, w) && Arrives(s, w, i) && x in s.t.brokers
    ensures Share(s, Arrived(s, w, i), x, p) == Share(s, w, x, p)
  {
    hide WellFormed, Above, Covers;
    InScene(s);
    ArriveComing(s, w, i, x, p);
  }

  lemma ArriveOk(s: Scene, w: Sky, i: nat)
    requires Distinct(s) && SkyOk(s, w) && Arrives(s, w, i)
    ensures SkyOk(s, Arrived(s, w, i))
  {
    hide WellFormed;
    InScene(s);
    var c := w.copies[i];
    SouthOk(s, s.t.brokers, End(s, c), c.pub, if c.North? then c.path else s.nobody);
  }

  // ---- every run -------------------------------------------------------------------------

  datatype Step = Publishes(at: Sock, pub: Pub) | Takes(i: nat)

  ghost predicate Enabled(s: Scene, w: Sky, a: Step)
    requires Distinct(s)
  {
    match a
    case Publishes(b, _) => b in s.t.depth
    case Takes(i) => i < |w.copies|
  }

  ghost function Next(s: Scene, w: Sky, a: Step): (w': Sky)
    requires Distinct(s) && SkyOk(s, w) && Enabled(s, w, a)
    ensures SkyOk(s, w')
  {
    match a
    case Publishes(b, p) =>
      var x := s.t.root;
      OnlyRootIn(s.t);
      PublishShares(s, w, b, p, x, p);
      Publish(s, w, b, p)
    case Takes(i) =>
      ArriveOk(s, w, i);
      Arrived(s, w, i)
  }

  lemma OnlyRootIn(t: Topo)
    requires WellFormed(t)
    ensures t.root in t.brokers
  {
  }

  ghost predicate Run(s: Scene, w: Sky, steps: seq<Step>)
    requires Distinct(s) && SkyOk(s, w)
    decreases |steps|
  {
    steps == [] || (Enabled(s, w, steps[0]) && Run(s, Next(s, w, steps[0]), steps[1..]))
  }

  ghost function After(s: Scene, w: Sky, steps: seq<Step>): (w': Sky)
    requires Distinct(s) && SkyOk(s, w) && Run(s, w, steps)
    ensures SkyOk(s, w')
    decreases |steps|
  {
    if steps == [] then w else After(s, Next(s, w, steps[0]), steps[1..])
  }

  function TimesPublished(steps: seq<Step>, p: Pub): nat {
    if steps == [] then 0 else One(steps[0].Publishes? && steps[0].pub == p) + TimesPublished(steps[1..], p)
  }

  lemma {:induction false} RunShares(s: Scene, w: Sky, steps: seq<Step>, x: Sock, p: Pub)
    requires Distinct(s) && SkyOk(s, w) && Run(s, w, steps) && x in s.t.brokers
    ensures Share(s, After(s, w, steps), x, p) == Share(s, w, x, p) + TimesPublished(steps, p)
    decreases |steps|
  {
    hide WellFormed, Share;
    if steps != [] {
      RunShares(s, Next(s, w, steps[0]), steps[1..], x, p);
      match steps[0]
      case Publishes(b, p') => PublishShares(s, w, b, p', x, p);
      case Takes(i) => ArriveShares(s, w, i, x, p);
    }
  }

  /** A publication made once, its copies arriving in any order: no broker ever hands it to its
  clients twice, those that have not yet are exactly those that some one copy under way will
  bring it to, and once no copy is left every broker has handed it on exactly once. */
  lemma ExactlyOnce(s: Scene, steps: seq<Step>, x: Sock, p: Pub)
    requires Distinct(s) && x in s.t.brokers
    requires SkyOk(s, Sky([], [])) && Run(s, Sky([], []), steps) && TimesPublished(steps, p) == 1
    ensures var w := After(s, Sky([], []), steps);
      && multiset(w.done)[(x, p)] + Coming(s, w.copies, x, p) == 1
      && (w.copies == [] ==> multiset(w.done)[(x, p)] == 1)
  {
    RunShares(s, Sky([], []), steps, x, p);
    assert Share(s, Sky([], []), x, p) == 0;
  }

  /** Copies that will be dropped as echoes. */
  ghost function Echoes(s: Scene, cs: seq<Copy>, p: Pub): nat {
    if cs == [] then 0 else One(cs[0].pub == p && Dropped(s, cs[0])) + Echoes(s, cs[1..], p)
  }

  ghost function ComingTo(s: Scene, cs: seq<Copy>, p: Pub): Sock -> nat
    requires WellFormed(s.t)
  {
    x => Coming(s, cs, x, p)
  }

  /** How many more arrivals there can be of copies of p. */
  ghost function Left(s: Scene, w: Sky, p: Pub): nat
    requires WellFormed(s.t)
  {
    2 * Sum(s.t.brokers, ComingTo(s, w.copies, p)) + Echoes(s, w.copies, p)
  }

  lemma {:induction false} EchoesPlus(s: Scene, cs: seq<Copy>, ds: seq<Copy>, p: Pub)
    ensures Echoes(s, cs + ds, p) == Echoes(s, cs, p) + Echoes(s, ds, p)
  {
    hide Dropped;
    if cs == [] {
      assert cs + ds == ds;
    } else {
      EchoesPlus(s, cs[1..], ds, p);
      assert (cs + ds)[1..] == cs[1..] + ds;
    }
  }

  lemma EchoesWithout(s: Scene, w: Sky, i: nat, p: Pub)
    requires i < |w.copies|
    ensures Echoes(s, w.copies, p) == Echoes(s, Without(w, i), p) + One(w.copies[i].pub == p && Dropped(s, w.copies[i]))
  {
    hide Dropped;
    EchoesPlus(s, w.copies[..i], w.copies[i + 1..], p);
    EchoesPlus(s, w.copies[..i], w.copies[i..], p);
    assert w.copies == w.copies[..i] + w.copies[i..];
    assert w.copies[i..][1..] == w.copies[i + 1..];
  }

  /** What goes south to the children of b carries at most one echo, and none under the null path. */
  lemma {:induction false} OneEcho(s: Scene, qs: seq<Sock>, b: Sock, p: Pub, path: Tag, p': Pub)
    requires Distinct(s)
    requires forall i, j :: 0 <= i < j < |qs| ==> qs[i] != qs[j]
    ensures var n := Echoes(s, ToSouth(s.t, qs, b, p, path), p');
      && n <= 1 && (p' != p ==> n == 0)
      && (n == 1 ==> path != s.nobody && exists c :: c in qs && c in s.t.parent && s.t.parent[c] == b && s.ids[c] == path)
  {
    hide WellFormed;
    InScene(s);
    if qs != [] {
      var rest := ToSouth(s.t, qs[1..], b, p, path);
      OneEcho(s, qs[1..], b, p, path, p');
      if qs[0] in s.t.parent && s.t.parent[qs[0]] == b {
        assert ([South(qs[0], p, path)] + rest)[1..] == rest;
      } else {
        assert [] + rest == rest;
      }
    }
  }

  lemma SentEchoes(s: Scene, b: Sock, north: bool, p: Pub, path: Tag, p': Pub)
    requires Distinct(s) && b in s.ids
    ensures Echoes(s, Sent(s, b, north, p, path), p') <= One(p' == p && path != s.nobody)
  {
    hide WellFormed;
    BrokersOnce(s.t);
    var n := if north then ToNorth(s, b, p) else [];
    EchoesPlus(s, n, ToSouth(s.t, s.t.brokers, b, p, path), p');
    OneEcho(s, s.t.brokers, b, p, path, p');
    if n != [] {
      assert n[1..] == [];
    }
  }

  lemma EndIn(s: Scene, c: Copy)
    requires Distinct(s) && CopyOk(s, c)
    ensures End(s, c) in s.t.brokers && End(s, c) in s.ids
  {
  }

  /** Each arrival of a copy of p leaves fewer to come; other arrivals leave as many. */
  lemma ArriveLeft(s: Scene, w: Sky, i: nat, p: Pub)
    requires Distinct(s) && Arrives(s, w, i)
    ensures Left(s, Arrived(s, w, i), p) + One(w.copies[i].pub == p) <= Left(s, w, p)
  {
    hide WellFormed, Dropped;
    InScene(s);
    var c := w.copies[i];
    EndIn(s, c);
    BrokersOnce(s.t);
    var w' := Arrived(s, w, i);
    EchoesWithout(s, w, i, p);
    ArriveEchoes(s, w, i, p);
    forall x | x in s.t.brokers
      ensures ComingTo(s, w.copies, p)(x) == ComingTo(s, w'.copies, p)(x) + One(c.pub == p && !Dropped(s, c) && x == End(s, c))
    {
      ArriveComing(s, w, i, x, p);
    }
    SumBump(s.t.brokers, ComingTo(s, w'.copies, p), ComingTo(s, w.copies, p), End(s, c));
  }

  lemma ArriveEchoes(s: Scene, w: Sky, i: nat, p: Pub)
    requires Distinct(s) && Arrives(s, w, i)
    ensures var c := w.copies[i];
      Echoes(s, Arrived(s, w, i).copies, p) <= Echoes(s, Without(w, i), p) + One(c.pub == p && !Dropped(s, c))
  {
    hide WellFormed;
    InScene(s);
    var c := w.copies[i];
    EndIn(s, c);
    if !Dropped(s, c) {
      var path := if c.North? then c.path else s.nobody;
      var out := Sent(s, End(s, c), c.North?, c.pub, path);
      EchoesPlus(s, Without(w, i), out, p);
      SentEchoes(s, End(s, c), c.North?, c.pub, path, p);
      if c.North? {
        assert Arrived(s, w, i).copies == Without(w, i) + out;
      } else {
        assert out == ToSouth(s.t, s.t.brokers, c.to, c.pub, s.nobody);
      }
    }
  }

  lemma PublishLeft(s: Scene, w: Sky, b: Sock, p': Pub, p: Pub)
    requires Distinct(s) && SkyOk(s, w) && b in s.t.depth && p' != p
    ensures Left(s, Publish(s, w, b, p'), p) == Left(s, w, p)
  {
    hide WellFormed;
    var out := Sent(s, b, true, p', s.nobody);
    EchoesPlus(s, w.copies, out, p);
    SentEchoes(s, b, true, p', s.nobody, p);
    forall x | x in s.t.brokers
      ensures ComingTo(s, w.copies, p)(x) == ComingTo(s, Publish(s, w, b, p').copies, p)(x)
    {
      ComingPlus(s, w.copies, out, x, p);
      SentComing(s, b, true, p', s.nobody, x, p);
    }
    SumSame(s.t.brokers, ComingTo(s, w.copies, p), ComingTo(s, Publish(s, w, b, p').copies, p));
  }

  /** How many copies of p arrive in a run. */
  ghost function Arrivals(s: Scene, w: Sky, steps: seq<Step>, p: Pub): nat
    requires Distinct(s) && SkyOk(s, w) && Run(s, w, steps)
    decreases |steps|
  {
    if steps == [] then 0
    else One(steps[0].Takes? && w.copies[steps[0].i].pub == p) + Arrivals(s, Next(s, w, steps[0]), steps[1..], p)
  }

  /** The copies of a publication run out, whatever else is published meanwhile. */
  lemma {:induction false} FloodEnds(s: Scene, w: Sky, steps: seq<Step>, p: Pub)
    requires Distinct(s) && SkyOk(s, w) && Run(s, w, steps) && TimesPublished(steps, p) == 0
    ensures Arrivals(s, w, steps, p) + Left(s, After(s, w, steps), p) <= Left(s, w, p)
    decreases |steps|
  {
    hide WellFormed, Left;
    if steps != [] {
      FloodEnds(s, Next(s, w, steps[0]), steps[1..], p);
      match steps[0]
      case Publishes(b, p') => PublishLeft(s, w, b, p', p);
      case Takes(i) => ArriveLeft(s, w, i, p);
    }
  }

  // ---- identifiers that are not distinct -------------------------------------------------

  /** What comes north from q reaches the brokers below its sibling c exactly when c does not have
  q's identifier: distinct identifiers are needed. */
  lemma SiblingNeedsOwnId(s: Scene, q: Sock, c: Sock, p: Pub)
    requires WellFormed(s.t) && q in s.t.parent && c in s.t.parent && q != c && s.t.parent[q] == s.t.parent[c]
    requires q in s.ids && c in s.ids
    ensures Coming(s, ToSouth(s.t, s.t.brokers, s.t.parent[q], p, s.ids[q]), c, p) == 1 <==> s.ids[c] != s.ids[q]
  {
    var b := s.t.parent[q];
    SouthOnce(s, s.t.brokers, b, p, s.ids[q], c);
    AboveSelf(s.t, c);
    if s.ids[c] != s.ids[q] {
      assert Via(s, b, s.ids[q], c, c);
    } else if d :| d in s.t.brokers && Via(s, b, s.ids[q], c, d) {
      OneSibling(s.t, c, d, c);
    }
  }
}
