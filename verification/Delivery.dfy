/** What becomes of messages: none is lost or doubled, every one settles, and while no client comes
or goes every one is either handed to its destination or returned to its sender. */
module Delivery {
  import opened Broker
  import opened RouteTree
  import opened Routing

  // ---- weights --------------------------------------------------------------------------

  /** A weight for every message on every channel, and for every event. */
  datatype Meter = Meter(up: (Sock, UpMsg) -> nat, down: (Sock, DownMsg) -> nat, event: Event -> nat)

  function Load<M>(q: Sock, ms: seq<M>, w: (Sock, M) -> nat): nat {
    if ms == [] then 0 else w(q, ms[0]) + Load(q, ms[1..], w)
  }

  lemma {:induction false} LoadAppend<M>(q: Sock, ms: seq<M>, m: M, w: (Sock, M) -> nat)
    ensures Load(q, ms + [m], w) == Load(q, ms, w) + w(q, m)
  {
    if ms == [] {
      assert ms + [m] == [m] && [m][1..] == [];
    } else {
      LoadAppend(q, ms[1..], m, w);
      assert (ms + [m])[1..] == ms[1..] + [m];
    }
  }

  function Logged(log: seq<Event>, w: Event -> nat): nat {
    if log == [] then 0 else Logged(log[..|log| - 1], w) + w(log[|log| - 1])
  }

  function Held(net: Net, k: Meter, q: Sock): nat {
    (if q in net.up then Load(q, net.up[q], k.up) else 0) + (if q in net.down then Load(q, net.down[q], k.down) else 0)
  }

  function HeldBy(net: Net, k: Meter): Sock -> nat {
    q => Held(net, k, q)
  }

  function Total(t: Topo, net: Net, k: Meter): nat {
    Sum(t.brokers, HeldBy(net, k)) + Logged(net.log, k.event)
  }

  function Weigh(k: Meter, b: Sock, o: Out): nat {
    match o
    case Up(m) => k.up(b, m)
    case Down(c, d) => k.down(c, d)
    case Log(e) => k.event(e)
    case Refused(_) => 0
  }

  function WeighAll(k: Meter, b: Sock, out: seq<Out>): nat {
    if out == [] then 0 else Weigh(k, b, out[0])
  }

  lemma Bumped(s: Setting, net: Net, net': Net, k: Meter, x: Sock)
    requires WellFormed(s.t) && x in s.t.parent && net'.log == net.log
    requires net'.up.Keys == net.up.Keys && net'.down.Keys == net.down.Keys
    requires forall q :: q in net.up && q != x ==> net'.up[q] == net.up[q]
    requires forall q :: q in net.down && q != x ==> net'.down[q] == net.down[q]
    ensures Total(s.t, net', k) + Held(net, k, x) == Total(s.t, net, k) + Held(net', k, x)
  {
    hide Held;
    forall q | q in s.t.brokers && q != x ensures HeldBy(net, k)(q) == HeldBy(net', k)(q) {
      HeldSame(net, net', k, q);
    }
    SumBump(s.t.brokers, HeldBy(net, k), HeldBy(net', k), x);
  }

  lemma HeldSame(net: Net, net': Net, k: Meter, q: Sock)
    requires net'.up.Keys == net.up.Keys && net'.down.Keys == net.down.Keys
    requires q in net.up ==> net'.up[q] == net.up[q]
    requires q in net.down ==> net'.down[q] == net.down[q]
    ensures Held(net', k, q) == Held(net, k, q)
  {
  }

  /** What a broker sends adds its weight. */
  lemma Emitted(s: Setting, net: Net, k: Meter, b: Sock, known: set<Name>, o: Out)
    requires WellFormed(s.t) && Shaped(s.t, net) && OutOk(s, b, known, o)
    ensures Total(s.t, Emit(net, b, o), k) == Total(s.t, net, k) + Weigh(k, b, o)
  {
    hide WellFormed, Sum;
    var net' := Emit(net, b, o);
    match o
    case Up(m) =>
      LoadAppend(b, net.up[b], m, k.up);
      Bumped(s, net, net', k, b);
    case Down(c, d) =>
      LoadAppend(c, net.down[c], d, k.down);
      Bumped(s, net, net', k, c);
    case Log(e) =>
      assert net'.log[..|net'.log| - 1] == net.log;
      SumSame(s.t.brokers, HeldBy(net, k), HeldBy(net', k));
    case Refused(_) =>
  }

  lemma Acted(s: Setting, net: Net, k: Meter, b: Sock, r: (Tables, seq<Out>))
    requires WellFormed(s.t) && Shaped(s.t, net) && b in net.bs && Sound(s, b, Known(net.bs[b]), r)
    ensures Total(s.t, Act(net, b, r), k) == Total(s.t, net, k) + WeighAll(k, b, r.1)
  {
    hide WellFormed, Sum, Emit, OutOk, BrokerOk, Known;
    var mid := net.(bs := net.bs[b := r.0]);
    EmitOne(mid, b, r.1);
    SumSame(s.t.brokers, HeldBy(net, k), HeldBy(mid, k));
    if r.1 != [] {
      Emitted(s, mid, k, b, Known(net.bs[b]), r.1[0]);
    }
  }

  lemma PoppedUp(s: Setting, net: Net, k: Meter, q: Sock)
    requires WellFormed(s.t) && Shaped(s.t, net) && q in s.t.parent && net.up[q] != []
    ensures Total(s.t, net, k) == Total(s.t, net.(up := net.up[q := net.up[q][1..]]), k) + k.up(q, net.up[q][0])
  {
    hide WellFormed, Sum;
    Bumped(s, net, net.(up := net.up[q := net.up[q][1..]]), k, q);
  }

  lemma PoppedDown(s: Setting, net: Net, k: Meter, q: Sock)
    requires WellFormed(s.t) && Shaped(s.t, net) && q in s.t.parent && net.down[q] != []
    ensures Total(s.t, net, k) == Total(s.t, net.(down := net.down[q := net.down[q][1..]]), k) + k.down(q, net.down[q][0])
  {
    hide WellFormed, Sum;
    Bumped(s, net, net.(down := net.down[q := net.down[q][1..]]), k, q);
  }

  // ---- the account of one step -----------------------------------------------------------

  /** What the message taken in weighed. */
  ghost function Input(s: Setting, net: Net, k: Meter, a: Step): nat
    requires WellFormed(s.t) && Shaped(s.t, net) && Enabled(s, net, a)
  {
    match a
    case RecvUp(q) => k.up(q, net.up[q][0])
    case RecvDown(q) => k.down(q, net.down[q][0])
    case _ => 0
  }

  ghost function Output(s: Setting, net: Net, k: Meter, a: Step): nat
    requires WellFormed(s.t) && Shaped(s.t, net) && Enabled(s, net, a)
  {
    ActorIn(s.t, a);
    WeighAll(k, Actor(s.t, a), Reaction(s, net, a).1)
  }

  lemma StepTotal(s: Setting, net: Net, k: Meter, a: Step)
    requires WellFormed(s.t) && Inv(s, net) && Enabled(s, net, a)
    ensures Total(s.t, Next(s, net, a), k) + Input(s, net, k, a) == Total(s.t, net, k) + Output(s, net, k, a)
  {
    hide WellFormed, BrokerOk, Edge, Known, Sound, Act, Total, Reaction, WeighAll;
    ActorIn(s.t, a);
    StepSound(s, net, a);
    Acted(s, Taken(net, a), k, Actor(s.t, a), Reaction(s, net, a));
    match a
    case RecvUp(q) => PoppedUp(s, net, k, q);
    case RecvDown(q) => PoppedDown(s, net, k, q);
    case _ =>
  }

  // ---- nothing is lost or doubled --------------------------------------------------------

  function One(b: bool): nat { if b then 1 else 0 }

  /** Counts the messages and events that carry id. */
  function Count(id: Id): Meter {
    Meter((q, m: UpMsg) => One(m.ForwardUp? && m.id == id),
          (q, m: DownMsg) => One((m.ForwardDown? && m.id == id) || (m.NoDst? && m.id == id)),
          (e: Event) => One(e.id == id))
  }

  /** A registered client sends id. */
  predicate Sends(net: Net, a: Step, id: Id) {
    a.Send? && a.id == id && a.at in net.bs && a.conn in net.bs[a.at].byConn
  }

  lemma StepConserves(s: Setting, net: Net, a: Step, id: Id)
    requires WellFormed(s.t) && Inv(s, net) && Enabled(s, net, a)
    ensures Total(s.t, Next(s, net, a), Count(id)) == Total(s.t, net, Count(id)) + One(Sends(net, a, id))
  {
    hide WellFormed, BrokerOk, Known, Sound, Act, Total, Next, EdgeOk, Under, Shown, Destination, SendsPublic, Public, AfterDot;
    StepTotal(s, net, Count(id), a);
    ActorIn(s.t, a);
    match a
    case RecvUp(q) =>
      ParentOf(s.t, q);
      assert BrokerOk(s, s.t.parent[q], net.bs[s.t.parent[q]]);
      Placed(s, s.t.parent[q], net.bs[s.t.parent[q]], q);
    case RecvDown(q) =>
      assert Edge(s, net, q);
      assert net.down[q][0] in net.down[q];
    case _ =>
  }

  lemma Placed(s: Setting, b: Sock, tb: Tables, q: Sock)
    requires WellFormed(s.t) && BrokerOk(s, b, tb) && q in s.t.parent && s.t.parent[q] == b
    ensures q in tb.children
  {
  }

  ghost function TimesSent(s: Setting, net: Net, steps: seq<Step>, id: Id): nat
    requires WellFormed(s.t) && Inv(s, net) && Run(s, net, steps)
    decreases |steps|
  {
    if steps == [] then 0
    else Keeps(s, net, steps[0]); One(Sends(net, steps[0], id)) + TimesSent(s, Next(s, net, steps[0]), steps[1..], id)
  }

  /** In any run, whatever clients come and go, a message that is sent once is in exactly one place:
  on one channel, as itself or as the error about it, or in the log as one event. */
  lemma {:induction false} Conserved(s: Setting, net: Net, steps: seq<Step>, id: Id)
    requires WellFormed(s.t) && Inv(s, net) && Run(s, net, steps)
    ensures Total(s.t, After(s, net, steps), Count(id)) == Total(s.t, net, Count(id)) + TimesSent(s, net, steps, id)
    decreases |steps|
  {
    hide WellFormed, BrokerOk, Edge, Next, Total, Enabled;
    if steps != [] {
      Keeps(s, net, steps[0]);
      StepConserves(s, net, steps[0], id);
      Conserved(s, Next(s, net, steps[0]), steps[1..], id);
    }
  }

  // ---- every message settles -------------------------------------------------------------

  ghost function BudgetUp(s: Setting, q: Sock, m: UpMsg): nat
    requires WellFormed(s.t)
  {
    if q !in s.t.parent then 0
    else if m.ForwardUp? then LeftUp(s, q, m.dst) + 1 + s.t.height
    else s.t.depth[q]
  }

  ghost function BudgetDown(s: Setting, q: Sock, m: DownMsg): nat
    requires WellFormed(s.t)
  {
    if q !in s.t.parent then 0
    else if m.ForwardDown? then 3 * s.t.height - s.t.depth[q] + 1
    else s.t.height - s.t.depth[q] + 1
  }

  /** A bound on the receptions that a message can still cause. */
  ghost function Budget(s: Setting): Meter
    requires WellFormed(s.t)
  {
    Meter((q, m) => BudgetUp(s, q, m), (q, m) => BudgetDown(s, q, m), (e: Event) => 0)
  }

  predicate Receives(a: Step) {
    a.RecvUp? || a.RecvDown?
  }

  lemma SettleUp(s: Setting, b: Sock, tb: Tables, q: Sock, m: UpMsg)
    requires WellFormed(s.t) && BrokerOk(s, b, tb) && ChildOf(s, b, q) && UpOk(s, q, m)
    requires Clean1(m, From(tb, q))
    ensures WeighAll(Budget(s), b, HandleUp(tb, q, m).1) < BudgetUp(s, q, m)
  {
    hide WellFormed, TablesOk, LocalOk, Under, Shown;
    ParentOf(s.t, q);
    NotRoot(s, b);
    RootDepth(s);
    Placed(s, b, tb, q);
    match m
    case AddDcl(n) =>
      OnlyFrom(s, b, tb, q, n);
    case UnregDcli(n) =>
    case ForwardUp(src, dst, id, hops) =>
      if dst in tb.dist {
        Routed(s, b, tb, dst);
      }
      if Under(s, q, dst) {
        Upward(s, q, dst);
        OnlyFrom(s, b, tb, q, dst);
      }
  }

  lemma RootDepth(s: Setting)
    requires WellFormed(s.t)
    ensures s.t.root in s.t.depth && s.t.depth[s.t.root] == 0
  {
  }

  lemma SettleDown(s: Setting, b: Sock, tb: Tables, m: DownMsg)
    requires WellFormed(s.t) && BrokerOk(s, b, tb) && b in s.t.parent && b in s.t.depth && DownOk(s, b, m)
    ensures WeighAll(Budget(s), b, HandleDown(tb, m).1) < BudgetDown(s, b, m)
  {
    hide WellFormed, TablesOk, LocalOk, Under, Shown;
    ParentOf(s.t, b);
    match m
    case ForwardDown(src, dst, id, hops) =>
      if dst in tb.dist {
        Routed(s, b, tb, dst);
      }
    case NoDst(dst, src, id) =>
      if src in tb.dist {
        Routed(s, b, tb, src);
      }
  }

  lemma StepSettles(s: Setting, net: Net, a: Step)
    requires WellFormed(s.t) && Inv(s, net) && Enabled(s, net, a) && Receives(a)
    ensures Total(s.t, Next(s, net, a), Budget(s)) < Total(s.t, net, Budget(s))
  {
    hide WellFormed, BrokerOk, Known, Sound, Act, Total, Next, Under, From, WeighAll, HandleUp, HandleDown, BudgetUp, BudgetDown, UpOk, DownOk;
    StepTotal(s, net, Budget(s), a);
    ActorIn(s.t, a);
    match a
    case RecvUp(q) =>
      ParentOf(s.t, q);
      assert Edge(s, net, q) && net.up[q][0] in net.up[q];
      SettleUp(s, s.t.parent[q], net.bs[s.t.parent[q]], q, net.up[q][0]);
    case RecvDown(q) =>
      ParentOf(s.t, q);
      assert Edge(s, net, q) && net.down[q][0] in net.down[q];
      SettleDown(s, q, net.bs[q], net.down[q][0]);
  }

  /** Once nothing new is sent, only so many receptions are left: all channels run empty. */
  lemma {:induction false} Settles(s: Setting, net: Net, steps: seq<Step>)
    requires WellFormed(s.t) && Inv(s, net) && Run(s, net, steps) && forall a :: a in steps ==> Receives(a)
    ensures |steps| + Total(s.t, After(s, net, steps), Budget(s)) <= Total(s.t, net, Budget(s))
    decreases |steps|
  {
    hide WellFormed, BrokerOk, Edge, Next, Total, Enabled, Budget;
    if steps != [] {
      Keeps(s, net, steps[0]);
      assert steps[0] in steps;
      StepSettles(s, net, steps[0]);
      Settles(s, Next(s, net, steps[0]), steps[1..]);
    }
  }
}
