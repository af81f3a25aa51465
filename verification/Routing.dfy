/** The whole tree of brokers with a FIFO channel for each edge and direction.  In every reachable
state, replaying what waits on an edge onto the entries that the upper broker has for it gives
exactly the names the lower broker knows. */
module Routing {
  import opened Broker
  import opened RouteTree

  datatype Net = Net(bs: map<Sock, Tables>, up: map<Sock, seq<UpMsg>>, down: map<Sock, seq<DownMsg>>, log: seq<Event>)

  datatype Step =
    | Join(at: Sock, client: Client)
    | Leave(at: Sock, conn: Conn)
    | Send(at: Sock, conn: Conn, dest: string, id: Id)
    | RecvUp(from: Sock)
    | RecvDown(to: Sock)

  /** What is fixed for a run: the tree, the tenants every broker is configured with, and the one
  broker at which each name may register. */
  datatype Setting = Setting(t: Topo, tenants: seq<string>, home: map<Name, Sock>)

  ghost predicate Under(s: Setting, q: Sock, n: Name)
    requires WellFormed(s.t)
  {
    n in s.home && s.home[n] in s.t.brokers && Above(s.t, q, s.home[n])
  }

  function Init(t: Topo): Net {
    Net(map b | b in t.depth :: Tables(b == t.root, map[], map[], map[], Children(t, b)),
        map q | q in t.parent :: [], map q | q in t.parent :: [], [])
  }

  /** Puts one message where it belongs; ROUTER sockets drop what is addressed to nobody. */
  function Emit(net: Net, b: Sock, o: Out): (r: Net)
    ensures r.bs == net.bs && r.up.Keys == net.up.Keys && r.down.Keys == net.down.Keys
  {
    match o
    case Up(u) => if b in net.up then net.(up := net.up[b := net.up[b] + [u]]) else net
    case Down(c, d) => if c in net.down then net.(down := net.down[c := net.down[c] + [d]]) else net
    case Log(e) => net.(log := net.log + [e])
    case Refused(_) => net
  }

  function EmitAll(net: Net, b: Sock, out: seq<Out>): (r: Net)
    ensures r.bs == net.bs && r.up.Keys == net.up.Keys && r.down.Keys == net.down.Keys
    decreases |out|
  {
    if out == [] then net else EmitAll(Emit(net, b, out[0]), b, out[1..])
  }

  function HandleUp(b: Tables, q: Sock, m: UpMsg): (Tables, seq<Out>) {
    match m
    case AddDcl(n) => OnAddDcl(b, q, n)
    case UnregDcli(n) => OnUnregDcli(b, q, n)
    case ForwardUp(src, dst, id, hops) => (b, OnForwardUp(b, q, src, dst, id, hops))
  }

  function HandleDown(b: Tables, m: DownMsg): (Tables, seq<Out>) {
    match m
    case ForwardDown(src, dst, id, hops) => (b, OnForwardDown(b, src, dst, id, hops))
    case NoDst(dst, src, id) => (b, OnNoDst(b, dst, src, id))
    case RegFail(n) => OnRegFail(b, n)
  }

  /** Broker b goes over to new tables and sends out. */
  function Act(net: Net, b: Sock, r: (Tables, seq<Out>)): (r': Net)
    ensures r'.bs == net.bs[b := r.0] && r'.up.Keys == net.up.Keys && r'.down.Keys == net.down.Keys
  {
    EmitAll(net.(bs := net.bs[b := r.0]), b, r.1)
  }

  ghost predicate Shaped(t: Topo, net: Net) {
    && net.bs.Keys == t.depth.Keys && net.up.Keys == t.parent.Keys && net.down.Keys == t.parent.Keys
  }

  ghost predicate Enabled(s: Setting, net: Net, a: Step)
    requires WellFormed(s.t) && Shaped(s.t, net)
  {
    match a
    case Join(b, c) => b in s.t.depth && c.Prefix() in s.home && s.home[c.Prefix()] == b
    case Leave(b, _) => b in s.t.depth
    case Send(b, _, _, _) => b in s.t.depth
    case RecvUp(q) => q in s.t.parent && net.up[q] != []
    case RecvDown(q) => q in s.t.parent && net.down[q] != []
  }

  function Actor(t: Topo, a: Step): Sock
    requires a.RecvUp? ==> a.from in t.parent
  {
    match a
    case Join(b, _) => b
    case Leave(b, _) => b
    case Send(b, _, _, _) => b
    case RecvUp(q) => t.parent[q]
    case RecvDown(q) => q
  }

  /** The network without the message that is taken in. */
  function Taken(net: Net, a: Step): Net
    requires a.RecvUp? ==> a.from in net.up && net.up[a.from] != []
    requires a.RecvDown? ==> a.to in net.down && net.down[a.to] != []
  {
    match a
    case RecvUp(q) => net.(up := net.up[q := net.up[q][1..]])
    case RecvDown(q) => net.(down := net.down[q := net.down[q][1..]])
    case _ => net
  }

  /** What the acting broker makes of it. */
  function Reaction(s: Setting, net: Net, a: Step): (Tables, seq<Out>)
    requires a.RecvUp? ==> a.from in s.t.parent && a.from in net.up && net.up[a.from] != []
    requires a.RecvDown? ==> a.to in net.down && net.down[a.to] != []
    requires Actor(s.t, a) in net.bs
  {
    var tb := net.bs[Actor(s.t, a)];
    match a
    case Join(_, c) => Register(tb, c)
    case Leave(_, conn) => Unregister(tb, conn)
    case Send(_, conn, dest, id) => (tb, OnSend(tb, s.tenants, conn, dest, id))
    case RecvUp(q) => HandleUp(tb, q, net.up[q][0])
    case RecvDown(q) => HandleDown(tb, net.down[q][0])
  }

  ghost function Next(s: Setting, net: Net, a: Step): Net
    requires WellFormed(s.t) && Shaped(s.t, net) && Enabled(s, net, a)
  {
    ActorIn(s.t, a);
    Act(Taken(net, a), Actor(s.t, a), Reaction(s, net, a))
  }

  lemma ActorIn(t: Topo, a: Step)
    requires WellFormed(t)
    requires match a { case RecvUp(q) => q in t.parent case RecvDown(q) => q in t.parent case _ => a.at in t.depth }
    ensures Actor(t, a) in t.depth
  {
  }

  // ---- one edge --------------------------------------------------------------------------

  function Replay1(m: UpMsg, names: set<Name>): set<Name> {
    match m
    case AddDcl(n) => names + {n}
    case UnregDcli(n) => names - {n}
    case ForwardUp(_, _, _, _) => names
  }

  function Replay(ms: seq<UpMsg>, names: set<Name>): set<Name> {
    if ms == [] then names else Replay(ms[1..], Replay1(ms[0], names))
  }

  /** m announces something new, withdraws something announced, or asks for something unknown. */
  predicate Clean1(m: UpMsg, names: set<Name>) {
    match m
    case AddDcl(n) => n !in names
    case UnregDcli(n) => n in names
    case ForwardUp(_, dst, _, _) => dst !in names
  }

  predicate Clean(ms: seq<UpMsg>, names: set<Name>) {
    ms == [] || (Clean1(ms[0], names) && Clean(ms[1..], Replay1(ms[0], names)))
  }

  lemma {:induction false} ReplayAppend(ms: seq<UpMsg>, m: UpMsg, names: set<Name>)
    ensures Replay(ms + [m], names) == Replay1(m, Replay(ms, names))
    ensures Clean(ms + [m], names) <==> Clean(ms, names) && Clean1(m, Replay(ms, names))
  {
    if ms == [] {
      assert ms + [m] == [m];
      assert [m][1..] == [];
    } else {
      ReplayAppend(ms[1..], m, Replay1(ms[0], names));
      assert (ms + [m])[1..] == ms[1..] + [m];
    }
  }

  // ---- hops ------------------------------------------------------------------------------

  /** How many more wires a message on the channel above q can cross. */
  ghost function LeftUp(s: Setting, q: Sock, dst: Name): nat
    requires WellFormed(s.t) && q in s.t.parent
  {
    if Under(s, q, dst) then s.t.depth[q] - 1 else s.t.depth[q] - 1 + 2 * s.t.height
  }

  ghost predicate UpOk(s: Setting, q: Sock, m: UpMsg)
    requires WellFormed(s.t) && q in s.t.parent
  {
    match m
    case AddDcl(n) => Under(s, q, n)
    case UnregDcli(n) => true
    case ForwardUp(_, dst, _, hops) => hops + LeftUp(s, q, dst) <= 3 * s.t.height
  }

  ghost predicate DownOk(s: Setting, q: Sock, m: DownMsg)
    requires WellFormed(s.t) && q in s.t.parent
  {
    match m
    case ForwardDown(_, dst, _, hops) => Under(s, q, dst) && hops + 2 * s.t.height - s.t.depth[q] <= 3 * s.t.height
    case NoDst(_, _, _) => true
    case RegFail(_) => false
  }

  // ---- the invariant ---------------------------------------------------------------------

  ghost predicate LocalOk(s: Setting, b: Sock, byName: map<Name, Client>) {
    forall n :: n in byName ==> n in s.home && s.home[n] == b
  }

  ghost predicate DistOk(s: Setting, children: set<Sock>, dist: map<Name, Sock>)
    requires WellFormed(s.t)
  {
    forall n :: n in dist ==> dist[n] in children && Under(s, dist[n], n)
  }

  ghost predicate BrokerOk(s: Setting, b: Sock, tb: Tables)
    requires WellFormed(s.t)
  {
    && TablesOk(tb) && tb.isRoot == (b == s.t.root) && tb.children == Children(s.t, b)
    && LocalOk(s, b, tb.byName) && DistOk(s, tb.children, tb.dist)
  }

  ghost predicate EdgeOk(s: Setting, q: Sock, names: set<Name>, ms: seq<UpMsg>, known: set<Name>)
    requires WellFormed(s.t) && q in s.t.parent
  {
    && Clean(ms, names) && Replay(ms, names) == known
    && (forall m :: m in ms ==> UpOk(s, q, m))
  }

  ghost predicate Edge(s: Setting, net: Net, q: Sock)
    requires WellFormed(s.t) && Shaped(s.t, net) && q in s.t.parent
  {
    && EdgeOk(s, q, From(net.bs[s.t.parent[q]], q), net.up[q], Known(net.bs[q]))
    && (forall m :: m in net.down[q] ==> DownOk(s, q, m))
  }

  ghost predicate Inv(s: Setting, net: Net)
    requires WellFormed(s.t)
  {
    && Shaped(s.t, net)
    && (forall b :: b in s.t.depth ==> BrokerOk(s, b, net.bs[b]))
    && (forall q :: q in s.t.parent ==> Edge(s, net, q))
  }

  lemma FreshOk(s: Setting, b: Sock)
    requires WellFormed(s.t)
    ensures BrokerOk(s, b, Tables(b == s.t.root, map[], map[], map[], Children(s.t, b)))
  {
    hide WellFormed;
  }

  lemma InitInv(s: Setting)
    requires WellFormed(s.t)
    ensures Inv(s, Init(s.t))
  {
    hide BrokerOk, WellFormed, Under;
    var net := Init(s.t);
    forall b | b in s.t.depth ensures BrokerOk(s, b, net.bs[b]) {
      FreshOk(s, b);
    }
    forall q | q in s.t.parent ensures Edge(s, net, q) {
      ParentOf(s.t, q);
    }
  }

  // ---- one broker at work ----------------------------------------------------------------

  ghost predicate OutOk(s: Setting, b: Sock, known: set<Name>, o: Out)
    requires WellFormed(s.t)
  {
    match o
    case Up(m) => b in s.t.parent && Clean1(m, known) && UpOk(s, b, m)
    case Down(c, d) => c in s.t.parent && s.t.parent[c] == b && DownOk(s, c, d)
    case _ => true
  }

  /** What b says upwards brings the names the higher broker has for it to what b now knows. */
  ghost predicate Sound(s: Setting, b: Sock, known: set<Name>, r: (Tables, seq<Out>))
    requires WellFormed(s.t)
  {
    && BrokerOk(s, b, r.0)
    && |r.1| <= 1
    && (r.1 != [] ==> OutOk(s, b, known, r.1[0]))
    && (b in s.t.parent ==> Known(r.0) == if r.1 != [] && r.1[0].Up? then Replay1(r.1[0].u, known) else known)
  }

  lemma EmitOne(net: Net, b: Sock, out: seq<Out>)
    requires |out| <= 1
    ensures EmitAll(net, b, out) == if out == [] then net else Emit(net, b, out[0])
  {
    if out != [] {
      assert EmitAll(net, b, out) == EmitAll(Emit(net, b, out[0]), b, []);
    }
  }

  lemma ActChannels(net: Net, b: Sock, r: (Tables, seq<Out>), q: Sock)
    requires |r.1| <= 1 && q in net.up && q in net.down
    ensures Act(net, b, r).up[q] == if r.1 != [] && r.1[0].Up? && q == b then net.up[q] + [r.1[0].u] else net.up[q]
    ensures Act(net, b, r).down[q] == if r.1 != [] && r.1[0].Down? && q == r.1[0].child then net.down[q] + [r.1[0].d] else net.down[q]
  {
    EmitOne(net.(bs := net.bs[b := r.0]), b, r.1);
  }

  /** Every edge other than those to b's children is as it should be, and those will be with the
  entries of tb. */
  ghost predicate Ready(s: Setting, net: Net, b: Sock, tb: Tables)
    requires WellFormed(s.t)
  {
    && Shaped(s.t, net) && b in s.t.depth
    && (forall c :: c in s.t.depth ==> BrokerOk(s, c, net.bs[c]))
    && (forall q :: q in s.t.parent && s.t.parent[q] != b ==> Edge(s, net, q))
    && (forall q :: q in s.t.parent && s.t.parent[q] == b ==> EdgeOk(s, q, From(tb, q), net.up[q], Known(net.bs[q])))
    && (forall q, m :: q in s.t.parent && m in net.down[q] ==> DownOk(s, q, m))
  }

  lemma UpEdge(s: Setting, q: Sock, names: set<Name>, ms: seq<UpMsg>, known: set<Name>, m: UpMsg)
    requires WellFormed(s.t) && q in s.t.parent
    requires EdgeOk(s, q, names, ms, known) && Clean1(m, known) && UpOk(s, q, m)
    ensures EdgeOk(s, q, names, ms + [m], Replay1(m, known))
  {
    ReplayAppend(ms, m, names);
  }

  lemma ActUpEdge(s: Setting, net: Net, b: Sock, r: (Tables, seq<Out>), q: Sock)
    requires WellFormed(s.t) && q in s.t.parent
    requires Ready(s, net, b, r.0) && Sound(s, b, Known(net.bs[b]), r)
    ensures var net' := Act(net, b, r); EdgeOk(s, q, From(net'.bs[s.t.parent[q]], q), net'.up[q], Known(net'.bs[q]))
  {
    hide BrokerOk, DownOk, EdgeOk, Known, From, UpOk, Clean1, Replay1, WellFormed, Under, Act;
    ActChannels(net, b, r, q);
    ParentOf(s.t, q);
    var p := s.t.parent[q];
    if p != b {
      assert Edge(s, net, q);
      if q == b && r.1 != [] && r.1[0].Up? {
        UpEdge(s, q, From(net.bs[p], q), net.up[q], Known(net.bs[q]), r.1[0].u);
      }
    }
  }

  lemma ActDownEdge(s: Setting, net: Net, b: Sock, r: (Tables, seq<Out>), q: Sock)
    requires WellFormed(s.t) && q in s.t.parent
    requires Ready(s, net, b, r.0) && Sound(s, b, Known(net.bs[b]), r)
    ensures forall m :: m in Act(net, b, r).down[q] ==> DownOk(s, q, m)
  {
    hide BrokerOk, DownOk, EdgeOk, Known, From, UpOk, Clean1, Replay1, WellFormed, Under, Act, Edge;
    ActChannels(net, b, r, q);
  }

  lemma ActKeeps(s: Setting, net: Net, b: Sock, r: (Tables, seq<Out>))
    requires WellFormed(s.t)
    requires Ready(s, net, b, r.0) && Sound(s, b, Known(net.bs[b]), r)
    ensures Inv(s, Act(net, b, r))
  {
    hide BrokerOk, EdgeOk, OutOk, Known, From, WellFormed, DownOk, Act;
    forall q | q in s.t.parent ensures Edge(s, Act(net, b, r), q) {
      ParentOf(s.t, q);
      ActUpEdge(s, net, b, r, q);
      ActDownEdge(s, net, b, r, q);
    }
  }

  // ---- what each handler says ------------------------------------------------------------

  lemma Routed(s: Setting, b: Sock, tb: Tables, n: Name)
    requires WellFormed(s.t) && BrokerOk(s, b, tb) && n in tb.dist
    ensures tb.dist[n] in s.t.parent && s.t.parent[tb.dist[n]] == b && Under(s, tb.dist[n], n)
    ensures b in s.t.depth && s.t.depth[tb.dist[n]] == s.t.depth[b] + 1 <= s.t.height
  {
  }

  lemma Upward(s: Setting, q: Sock, n: Name)
    requires WellFormed(s.t) && q in s.t.parent && Under(s, q, n)
    ensures Under(s, s.t.parent[q], n)
  {
    AboveUp(s.t, q, s.home[n]);
  }

  /** A name below child q of b is neither local at b nor entered for another child. */
  lemma OnlyFrom(s: Setting, b: Sock, tb: Tables, q: Sock, n: Name)
    requires WellFormed(s.t) && BrokerOk(s, b, tb) && q in s.t.parent && s.t.parent[q] == b && Under(s, q, n)
    ensures n !in tb.byName
    ensures n in tb.dist ==> tb.dist[n] == q
  {
    NotBelowChild(s.t, q);
    if n in tb.dist {
      OneSibling(s.t, q, tb.dist[n], s.home[n]);
    }
  }

  lemma AtHome(s: Setting, b: Sock, n: Name)
    requires WellFormed(s.t) && b in s.t.depth && n in s.home && s.home[n] == b
    ensures Under(s, b, n) && (b in s.t.parent <==> b != s.t.root)
  {
  }

  lemma JoinSound(s: Setting, b: Sock, tb: Tables, c: Client)
    requires WellFormed(s.t) && BrokerOk(s, b, tb) && b in s.t.depth
    requires c.Prefix() in s.home && s.home[c.Prefix()] == b
    ensures Sound(s, b, Known(tb), Register(tb, c)) && Register(tb, c).0.dist == tb.dist
  {
    hide TablesOk, DistOk, Children, Client.Prefix, WellFormed;
    NotRoot(s, b);
    RegisterKeeps(tb, c);
    AtHome(s, b, c.Prefix());
  }

  lemma LeaveSound(s: Setting, b: Sock, tb: Tables, conn: Conn)
    requires WellFormed(s.t) && BrokerOk(s, b, tb) && b in s.t.depth
    ensures Sound(s, b, Known(tb), Unregister(tb, conn)) && Unregister(tb, conn).0.dist == tb.dist
  {
    hide DistOk, Children, Client.Prefix, WellFormed;
    NotRoot(s, b);
    UnregisterKeeps(tb, conn);
  }

  ghost predicate ChildOf(s: Setting, b: Sock, q: Sock)
    requires WellFormed(s.t)
  {
    q in s.t.parent && s.t.parent[q] == b && b in s.t.depth
  }

  lemma NotRoot(s: Setting, b: Sock)
    requires WellFormed(s.t) && b in s.t.depth
    ensures b in s.t.parent <==> b != s.t.root
    ensures b in s.t.parent ==> 1 <= s.t.depth[b] <= s.t.height
  {
  }

  lemma AddSound(s: Setting, b: Sock, tb: Tables, q: Sock, n: Name)
    requires WellFormed(s.t) && BrokerOk(s, b, tb) && ChildOf(s, b, q)
    requires Under(s, q, n) && n !in From(tb, q)
    ensures Sound(s, b, Known(tb), OnAddDcl(tb, q, n))
    ensures OnAddDcl(tb, q, n).0 == tb.(dist := tb.dist[n := q])
  {
    OnlyFrom(s, b, tb, q, n);
    Upward(s, q, n);
    DistKeeps(tb, q, n);
    AddSteps(s, b, tb, q, n);
  }

  lemma AddSteps(s: Setting, b: Sock, tb: Tables, q: Sock, n: Name)
    requires WellFormed(s.t) && BrokerOk(s, b, tb) && ChildOf(s, b, q)
    requires Under(s, q, n) && Under(s, b, n) && n !in Known(tb)
    requires TablesOk(OnAddDcl(tb, q, n).0)
    ensures Sound(s, b, Known(tb), OnAddDcl(tb, q, n))
    ensures OnAddDcl(tb, q, n).0 == tb.(dist := tb.dist[n := q])
  {
    hide TablesOk, LocalOk, Under, WellFormed;
    NotRoot(s, b);
    assert q in tb.children;
  }

  lemma UnregSound(s: Setting, b: Sock, tb: Tables, q: Sock, n: Name)
    requires WellFormed(s.t) && BrokerOk(s, b, tb) && ChildOf(s, b, q)
    requires n in From(tb, q)
    ensures Sound(s, b, Known(tb), OnUnregDcli(tb, q, n))
    ensures OnUnregDcli(tb, q, n).0 == tb.(dist := tb.dist - {n})
  {
    hide LocalOk, Under, WellFormed;
    NotRoot(s, b);
    DistKeeps(tb, q, n);
    assert q in tb.children;
    assert n !in tb.byName;
  }

  lemma UpSound(s: Setting, b: Sock, tb: Tables, q: Sock, src: Name, dst: Name, id: Id, hops: nat)
    requires WellFormed(s.t) && BrokerOk(s, b, tb) && ChildOf(s, b, q)
    requires dst !in From(tb, q) && UpOk(s, q, ForwardUp(src, dst, id, hops))
    ensures Sound(s, b, Known(tb), (tb, OnForwardUp(tb, q, src, dst, id, hops)))
    // what came up from q is never forwarded back down to q
    ensures forall o :: o in OnForwardUp(tb, q, src, dst, id, hops) && o.Down? && o.child == q ==> o.d.NoDst?
  {
    hide TablesOk, LocalOk, Under, WellFormed;
    NotRoot(s, b);
    ParentOf(s.t, q);
    assert q in tb.children;
    if dst in tb.dist {
      Routed(s, b, tb, dst);
    }
    if Under(s, q, dst) {
      Upward(s, q, dst);
      OnlyFrom(s, b, tb, q, dst);
    }
  }

  lemma DownSound(s: Setting, b: Sock, tb: Tables, m: DownMsg)
    requires WellFormed(s.t) && BrokerOk(s, b, tb) && b in s.t.parent && b in s.t.depth && DownOk(s, b, m)
    ensures Sound(s, b, Known(tb), HandleDown(tb, m)) && HandleDown(tb, m).0 == tb
  {
    hide TablesOk, LocalOk, Under, WellFormed;
    NotRoot(s, b);
    match m
    case ForwardDown(src, dst, id, hops) =>
      if dst in tb.dist {
        Routed(s, b, tb, dst);
      }
    case NoDst(dst, src, id) =>
      if src in tb.dist {
        Routed(s, b, tb, src);
      }
  }

  lemma SendSound(s: Setting, b: Sock, tb: Tables, conn: Conn, dest: string, id: Id)
    requires WellFormed(s.t) && BrokerOk(s, b, tb) && b in s.t.depth
    ensures Sound(s, b, Known(tb), (tb, OnSend(tb, s.tenants, conn, dest, id)))
  {
    hide TablesOk, LocalOk, Under, Destination, SendsPublic, AfterDot, WellFormed;
    NotRoot(s, b);
    if conn in tb.byConn {
      var dst := Destination(s.tenants, tb.byConn[conn].tenant, dest);
      if dst in tb.dist {
        Routed(s, b, tb, dst);
      }
    }
  }

  // ---- every step ------------------------------------------------------------------------

  /** Steps in which b's entries for its children stay, and at most a message from above leaves. */
  lemma ReadySame(s: Setting, net: Net, net1: Net, b: Sock, tb: Tables)
    requires WellFormed(s.t) && Inv(s, net) && Shaped(s.t, net1) && b in s.t.depth
    requires net1.bs == net.bs && net1.up == net.up && tb.dist == net.bs[b].dist
    requires forall q, m :: q in s.t.parent && m in net1.down[q] ==> m in net.down[q]
    ensures Ready(s, net1, b, tb)
  {
    hide WellFormed, BrokerOk, EdgeOk, DownOk, Known;
    forall q | q in s.t.parent
      ensures Edge(s, net, q) && (forall m :: m in net1.down[q] ==> DownOk(s, q, m))
      ensures s.t.parent[q] in s.t.depth && (s.t.parent[q] == b ==> From(tb, q) == From(net.bs[b], q))
    {
      ParentOf(s.t, q);
    }
  }

  /** What b's entries for q become when the first message of the edge is taken in. */
  ghost predicate TakesIn(b: Tables, b': Tables, q: Sock, m: UpMsg) {
    && From(b', q) == Replay1(m, From(b, q))
    && (forall c :: c != q ==> From(b', c) == From(b, c))
  }

  lemma ReadyUp(s: Setting, net: Net, q: Sock, tb: Tables)
    requires WellFormed(s.t) && Inv(s, net) && q in s.t.parent && net.up[q] != []
    requires s.t.parent[q] in s.t.depth && TakesIn(net.bs[s.t.parent[q]], tb, q, net.up[q][0])
    ensures Ready(s, net.(up := net.up[q := net.up[q][1..]]), s.t.parent[q], tb)
  {
    hide WellFormed, BrokerOk, DownOk, Known, From, UpOk, Replay1, Clean1;
    forall c | c in s.t.parent ensures Edge(s, net, c) && s.t.parent[c] in s.t.depth {
      ParentOf(s.t, c);
    }
  }

  lemma TakeIn(s: Setting, net: Net, q: Sock)
    requires WellFormed(s.t) && Inv(s, net) && q in s.t.parent && net.up[q] != []
    ensures var p := s.t.parent[q]; p in net.bs && Sound(s, p, Known(net.bs[p]), HandleUp(net.bs[p], q, net.up[q][0]))
    ensures var p := s.t.parent[q]; TakesIn(net.bs[p], HandleUp(net.bs[p], q, net.up[q][0]).0, q, net.up[q][0])
  {
    hide WellFormed, BrokerOk, DownOk, Known, Sound, Under;
    ParentOf(s.t, q);
    var p := s.t.parent[q];
    assert Edge(s, net, q);
    assert net.up[q][0] in net.up[q];
    var tb := net.bs[p];
    match net.up[q][0]
    case AddDcl(n) =>
      AddSound(s, p, tb, q, n);
    case UnregDcli(n) =>
      UnregSound(s, p, tb, q, n);
    case ForwardUp(src, dst, id, hops) =>
      UpSound(s, p, tb, q, src, dst, id, hops);
  }

  lemma StepSound(s: Setting, net: Net, a: Step)
    requires WellFormed(s.t) && Inv(s, net) && Enabled(s, net, a)
    ensures Actor(s.t, a) in net.bs && Sound(s, Actor(s.t, a), Known(net.bs[Actor(s.t, a)]), Reaction(s, net, a))
    ensures !a.RecvUp? ==> Reaction(s, net, a).0.dist == net.bs[Actor(s.t, a)].dist
  {
    hide WellFormed, BrokerOk, EdgeOk, Known, Sound, Under, Register, Unregister, OnSend, HandleDown, HandleUp, DownOk, TakesIn;
    ActorIn(s.t, a);
    match a
    case Join(b, c) =>
      JoinSound(s, b, net.bs[b], c);
    case Leave(b, conn) =>
      LeaveSound(s, b, net.bs[b], conn);
    case Send(b, conn, dest, id) =>
      SendSound(s, b, net.bs[b], conn, dest, id);
    case RecvUp(q) =>
      TakeIn(s, net, q);
    case RecvDown(q) =>
      assert Edge(s, net, q);
      assert net.down[q][0] in net.down[q];
      DownSound(s, q, net.bs[q], net.down[q][0]);
  }

  /** Every step keeps the invariant. */
  lemma Keeps(s: Setting, net: Net, a: Step)
    requires WellFormed(s.t) && Inv(s, net) && Enabled(s, net, a)
    ensures Inv(s, Next(s, net, a))
  {
    hide WellFormed, BrokerOk, Edge, Known, Sound, Act, HandleUp, DownOk, Ready, TakesIn, Reaction;
    ActorIn(s.t, a);
    StepSound(s, net, a);
    var r := Reaction(s, net, a);
    if a.RecvUp? {
      TakeIn(s, net, a.from);
      ReactUp(s, net, a);
      ReadyUp(s, net, a.from, r.0);
    } else {
      ReadySame(s, net, Taken(net, a), Actor(s.t, a), r.0);
    }
    ActKeeps(s, Taken(net, a), Actor(s.t, a), r);
  }

  lemma ReactUp(s: Setting, net: Net, a: Step)
    requires WellFormed(s.t) && Shaped(s.t, net) && Enabled(s, net, a) && a.RecvUp? && Actor(s.t, a) in net.bs
    ensures Reaction(s, net, a) == HandleUp(net.bs[s.t.parent[a.from]], a.from, net.up[a.from][0])
  {
    hide WellFormed, HandleUp;
  }

  // ---- every run -------------------------------------------------------------------------

  ghost predicate Run(s: Setting, net: Net, steps: seq<Step>)
    requires WellFormed(s.t) && Inv(s, net)
    decreases |steps|
  {
    steps == [] || (Enabled(s, net, steps[0]) && (Keeps(s, net, steps[0]); Run(s, Next(s, net, steps[0]), steps[1..])))
  }

  ghost function After(s: Setting, net: Net, steps: seq<Step>): (net': Net)
    requires WellFormed(s.t) && Inv(s, net) && Run(s, net, steps)
    ensures Inv(s, net')
    decreases |steps|
  {
    if steps == [] then net else Keeps(s, net, steps[0]); After(s, Next(s, net, steps[0]), steps[1..])
  }

  ghost predicate Reaches(s: Setting, steps: seq<Step>)
    requires WellFormed(s.t)
  {
    InitInv(s);
    Run(s, Init(s.t), steps)
  }

  ghost function Reached(s: Setting, steps: seq<Step>): (net: Net)
    requires WellFormed(s.t) && Reaches(s, steps)
    ensures Inv(s, net)
  {
    InitInv(s);
    After(s, Init(s.t), steps)
  }

  /** In every reachable state: what waits on an edge, replayed onto the entries for it, gives what
  the lower broker knows; what arrives from q is never sent on down to q; and no message has
  crossed more than three times the height of the tree. */
  lemma RoutingSafe(s: Setting, steps: seq<Step>, q: Sock)
    requires WellFormed(s.t) && Reaches(s, steps) && q in s.t.parent
    ensures var net := Reached(s, steps);
      && s.t.parent[q] in net.bs && q in net.bs && q in net.up && q in net.down
      && Replay(net.up[q], From(net.bs[s.t.parent[q]], q)) == Known(net.bs[q])
      && (forall m :: m in net.up[q] && m.ForwardUp? ==> m.hops <= 3 * s.t.height)
      && (forall m :: m in net.down[q] ==> !m.RegFail? && (m.ForwardDown? ==> m.hops <= 3 * s.t.height))
      && (net.up[q] != [] && net.up[q][0].ForwardUp? ==>
            forall o :: o in HandleUp(net.bs[s.t.parent[q]], q, net.up[q][0]).1 && o.Down? && o.child == q ==> o.d.NoDst?)
  {
    hide WellFormed, Under, BrokerOk, Known, Replay;
    var net := Reached(s, steps);
    ParentOf(s.t, q);
    assert Edge(s, net, q);
    if net.up[q] != [] && net.up[q][0].ForwardUp? {
      var m := net.up[q][0];
      assert m in net.up[q];
      UpSound(s, s.t.parent[q], net.bs[s.t.parent[q]], q, m.src, m.dst, m.id, m.hops);
    }
  }

  /** q is the child of c under which b lies. */
  ghost predicate Towards(t: Topo, c: Sock, q: Sock, b: Sock)
    requires WellFormed(t)
  {
    q in t.parent && t.parent[q] == c && Above(t, q, b)
  }

  /** In every reachable state the two tables of local clients hold the same records, no name is
  both local and distant, a name is local at no second broker, and every distant entry points
  towards the one broker where the name may be local. */
  lemma TablesAgree(s: Setting, steps: seq<Step>, b: Sock, c: Sock, n: Name)
    requires WellFormed(s.t) && Reaches(s, steps) && b in s.t.depth && c in s.t.depth
    ensures var net := Reached(s, steps);
      && b in net.bs && c in net.bs && TablesOk(net.bs[b])
      && (n in net.bs[b].byName && n in net.bs[c].byName ==> b == c)
      && (n in net.bs[b].byName && n in net.bs[c].dist ==> Towards(s.t, c, net.bs[c].dist[n], b))
  {
    hide WellFormed, Above;
    var net := Reached(s, steps);
    assert BrokerOk(s, b, net.bs[b]) && BrokerOk(s, c, net.bs[c]);
  }

  /** An UNREGDCLI is obeyed whichever child sent it: it spares the entries for other children
  exactly when the name is not entered for one of them. */
  lemma UnregSpares(b: Tables, q: Sock, n: Name)
    requires q in b.children
    ensures (forall c :: c != q ==> From(OnUnregDcli(b, q, n).0, c) == From(b, c)) <==> (n in b.dist ==> b.dist[n] == q)
  {
    var b' := OnUnregDcli(b, q, n).0;
    if n in b.dist && b.dist[n] != q {
      assert n in From(b, b.dist[n]) && n !in From(b', b.dist[n]);
    }
  }

  /** At a root, a name announced by child 1 is refused to child 2; yet if child 2 lets its client go
  before the refusal arrives, its withdrawal deletes the entry for child 1. */
  lemma TwoHomes()
    ensures var b := OnAddDcl(Tables(true, map[], map[], map[], {1, 2}), 1, "t.a").0;
      && From(b, 1) == {"t.a"}
      && OnAddDcl(b, 2, "t.a") == (b, [Down(2, RegFail("t.a"))])
      && From(OnUnregDcli(b, 2, "t.a").0, 1) == {}
  {
    var b := OnAddDcl(Tables(true, map[], map[], map[], {1, 2}), 1, "t.a").0;
    assert b.dist == map["t.a" := 1];
    assert OnUnregDcli(b, 2, "t.a").0.dist == map[];
  }
}
