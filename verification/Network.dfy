/** The tree of brokers as objects: one Daemon for each broker, joined by the channels.  Driving the
handlers of the daemons by any steps gives exactly the states of the step system, so what holds in
all of those holds of the daemons. */
module Network {
  import opened Broker
  import opened RouteTree
  import opened Routing
  import opened Delivery
  import opened Quiet

  class Cluster {
    const s: Setting
    var daemons: map<Sock, Daemon>
    var up: map<Sock, seq<UpMsg>>
    var down: map<Sock, seq<DownMsg>>
    var log: seq<Event>

    ghost function AllTables(): map<Sock, Tables>
      reads this`daemons, daemons.Values
    {
      map b | b in daemons :: daemons[b].View()
    }

    ghost function View(): Net
      reads this, daemons.Values
    {
      Net(AllTables(), up, down, log)
    }

    /** Every broker has a daemon of its own. */
    ghost predicate Apart()
      reads this`daemons
    {
      forall b, c :: b in daemons && c in daemons && b != c ==> daemons[b] != daemons[c]
    }

    ghost predicate Valid()
      reads this, daemons.Values
    {
      WellFormed(s.t) && Apart() && Inv(s, View())
    }

    constructor (s: Setting)
      requires WellFormed(s.t)
      ensures Valid() && this.s == s && View() == Init(s.t) && fresh(daemons.Values)
    {
      this.s, daemons, log := s, map[], [];
      up := map q | q in s.t.parent :: [];
      down := map q | q in s.t.parent :: [];
      new;
      hide Inv, WellFormed, Children, Init;
      Found();
      InitInv(s);
      NothingSent(s, up, down);
    }

    static lemma NothingSent(s: Setting, up: map<Sock, seq<UpMsg>>, down: map<Sock, seq<DownMsg>>)
      requires up.Keys == down.Keys == s.t.parent.Keys && forall q :: q in s.t.parent ==> up[q] == [] && down[q] == []
      ensures Init(s.t) == Net(Init(s.t).bs, up, down, [])
    {
    }

    /** Sets up a daemon for each broker. */
    method Found()
      requires daemons == map[]
      modifies this`daemons
      ensures WellFormed(s.t) ==> Apart() && AllTables() == Init(s.t).bs
      ensures fresh(daemons.Values)
    {
      hide Inv, WellFormed, Children;
      for i := 0 to |s.t.brokers|
        invariant Apart() && forall b :: b in daemons ==> fresh(daemons[b])
        invariant forall b :: b in daemons <==> b in s.t.brokers[..i]
        invariant forall b :: b in daemons ==> daemons[b].View() == Tables(b == s.t.root, map[], map[], map[], Children(s.t, b))
      {
        var b := s.t.brokers[i];
        var d := new Daemon(b == s.t.root, Children(s.t, b));
        daemons := daemons[b := d];
      }
      if WellFormed(s.t) {
        Listed(s.t);
        assert AllTables() == Init(s.t).bs;
      }
    }

    static lemma Listed(t: Topo)
      requires WellFormed(t)
      ensures forall b :: b in t.depth <==> b in t.brokers[..|t.brokers|]
    {
      assert t.brokers[..|t.brokers|] == t.brokers;
    }

    // ---- sending -------------------------------------------------------------------------

    method Put(b: Sock, o: Out)
      modifies this`up, this`down, this`log
      ensures View() == Emit(old(View()), b, o)
    {
      match o {
        case Up(m) =>
          if b in up {
            up := up[b := up[b] + [m]];
          }
        case Down(c, m) =>
          if c in down {
            down := down[c := down[c] + [m]];
          }
        case Log(e) =>
          log := log + [e];
        case Refused(_) =>
      }
    }

    /** Puts what broker b sends on the channels. */
    method Post(b: Sock, out: seq<Out>)
      modifies this`up, this`down, this`log
      ensures View() == EmitAll(old(View()), b, out)
    {
      hide Emit;
      for i := 0 to |out|
        invariant EmitAll(View(), b, out[i..]) == EmitAll(old(View()), b, out)
      {
        assert out[i..][0] == out[i] && out[i..][1..] == out[i + 1..];
        Put(b, out[i]);
      }
    }

    /** Only the daemon of broker b has changed. */
    twostate lemma OnlyAt(b: Sock)
      requires b in daemons && unchanged(this`daemons) && Apart()
      requires forall c :: c in daemons && c != b ==> unchanged(daemons[c])
      ensures AllTables() == old(AllTables())[b := daemons[b].View()]
    {
    }

    // ---- the steps -----------------------------------------------------------------------

    lemma Stands(b: Sock)
      requires Valid() && b in s.t.depth
      ensures b in daemons && daemons[b].Valid() && b in View().bs && View().bs[b] == daemons[b].View()
    {
      assert BrokerOk(s, b, View().bs[b]);
    }

    lemma Wired()
      requires Valid()
      ensures up.Keys == s.t.parent.Keys && down.Keys == s.t.parent.Keys
    {
    }

    method Join(b: Sock, c: Client)
      requires Valid() && Enabled(s, View(), Step.Join(b, c))
      modifies this`up, this`down, this`log, daemons.Values
      ensures View() == Next(s, old(View()), Step.Join(b, c))
    {
      hide Inv, WellFormed, Register, EmitAll;
      Stands(b);
      var out := daemons[b].Challok(c);
      OnlyAt(b);
      Post(b, out);
    }

    method Leave(b: Sock, conn: Conn)
      requires Valid() && Enabled(s, View(), Step.Leave(b, conn))
      modifies this`up, this`down, this`log, daemons.Values
      ensures View() == Next(s, old(View()), Step.Leave(b, conn))
    {
      hide Inv, WellFormed, Unregister, EmitAll;
      Stands(b);
      var out := daemons[b].UnregCli(conn);
      OnlyAt(b);
      Post(b, out);
    }

    method Send(b: Sock, conn: Conn, dest: string, id: Id)
      requires Valid() && Enabled(s, View(), Step.Send(b, conn, dest, id))
      modifies this`up, this`down, this`log
      ensures View() == Next(s, old(View()), Step.Send(b, conn, dest, id))
    {
      hide Inv, WellFormed, OnSend, EmitAll;
      Stands(b);
      var out := daemons[b].SendFrom(s.tenants, conn, dest, id);
      assert View().bs[b := View().bs[b]] == View().bs;
      Post(b, out);
    }

    /** The parent of q takes in the first message that q has sent up. */
    method TakeUp(q: Sock)
      requires Valid() && Enabled(s, View(), RecvUp(q))
      modifies this`up, this`down, this`log, daemons.Values
      ensures View() == Next(s, old(View()), RecvUp(q))
    {
      hide Inv, WellFormed, OnAddDcl, OnUnregDcli, OnForwardUp, EmitAll;
      Wired();
      var p, m := s.t.parent[q], up[q][0];
      ActorIn(s.t, RecvUp(q));
      Stands(p);
      up := up[q := up[q][1..]];
      var out;
      match m {
        case AddDcl(n) =>
          out := daemons[p].AddDistant(q, n);
        case UnregDcli(n) =>
          out := daemons[p].UnregDistant(q, n);
        case ForwardUp(src, dst, id, hops) =>
          out := daemons[p].ForwardFromBelow(q, src, dst, id, hops);
      }
      OnlyAt(p);
      assert (daemons[p].View(), out) == HandleUp(old(View()).bs[p], q, m);
      Post(p, out);
    }

    /** q takes in the first message that its parent has sent it. */
    method TakeDown(q: Sock)
      requires Valid() && Enabled(s, View(), RecvDown(q))
      modifies this`up, this`down, this`log, daemons.Values
      ensures View() == Next(s, old(View()), RecvDown(q))
    {
      hide Inv, WellFormed, OnRegFail, OnNoDst, OnForwardDown, EmitAll;
      Wired();
      var m := down[q][0];
      ActorIn(s.t, RecvDown(q));
      Stands(q);
      down := down[q := down[q][1..]];
      var out;
      if m.ForwardDown? {
        out := daemons[q].ForwardFromAbove(m.src, m.dst, m.id, m.hops);
      } else {
        out := daemons[q].HighError(m);
      }
      OnlyAt(q);
      assert (daemons[q].View(), out) == HandleDown(old(View()).bs[q], m);
      Post(q, out);
    }

    method Do(a: Step)
      requires Valid() && Enabled(s, View(), a)
      modifies this`up, this`down, this`log, daemons.Values
      ensures Valid() && View() == Next(s, old(View()), a)
    {
      hide Inv, WellFormed, Next, Enabled;
      Keeps(s, View(), a);
      match a
      case Join(b, c) => Join(b, c);
      case Leave(b, conn) => Leave(b, conn);
      case Send(b, conn, dest, id) => Send(b, conn, dest, id);
      case RecvUp(q) => TakeUp(q);
      case RecvDown(q) => TakeDown(q);
    }

    /** Any run of the step system, done by the daemons, ends in the state of that run. */
    method Play(steps: seq<Step>)
      requires Valid() && Run(s, View(), steps)
      modifies this`up, this`down, this`log, daemons.Values
      ensures Valid() && View() == After(s, old(View()), steps)
    {
      hide Inv, WellFormed, Next, Enabled;
      for i := 0 to |steps|
        invariant Valid() && Run(s, View(), steps[i..]) && After(s, View(), steps[i..]) == After(s, old(View()), steps)
      {
        assert steps[i..][0] == steps[i] && steps[i..][1..] == steps[i + 1..];
        Do(steps[i]);
      }
    }

    /** What RoutingSafe says of a state, said of the daemons and the channels that were driven there. */
    method Live(steps: seq<Step>)
      requires Valid() && View() == Init(s.t) && Reaches(s, steps)
      modifies this`up, this`down, this`log, daemons.Values
      ensures Valid() && View() == Reached(s, steps)
      ensures forall q :: q in s.t.parent ==>
                && s.t.parent[q] in daemons && q in daemons && q in up
                && Replay(up[q], From(daemons[s.t.parent[q]].View(), q)) == Known(daemons[q].View())
    {
      hide Inv, WellFormed, Next, Enabled, Run, Replay, From, Known;
      Play(steps);
      forall q | q in s.t.parent
        ensures s.t.parent[q] in daemons && q in daemons && q in up
        ensures Replay(up[q], From(daemons[s.t.parent[q]].View(), q)) == Known(daemons[q].View())
      {
        RoutingSafe(s, steps, q);
      }
    }

    /** What QuietDelivery says, said of the log that the daemons leave: while no client comes or goes,
    a message sent is delivered or returned, once. */
    method Hush(ghost tags: Tags, steps: seq<Step>, ghost id: Id)
      requires Valid() && Run(s, View(), steps) && ProperRun(s, tags, true, View(), steps)
      requires NoControl(View()) && Undotted(View().bs) && Unused(tags, View()) && id in tags
      modifies this`up, this`down, this`log, daemons.Values
      ensures Valid() && View() == After(s, old(View()), steps)
      ensures Idle(View()) ==> Logged(log, Count(id).event) == TimesSent(s, old(View()), steps, id)
      ensures forall e: Event :: e in log && e.id == id ==> Settled(s, tags, View(), e)
    {
      hide Inv, WellFormed, Next, Enabled, Run, ProperRun, NoControl, Undotted, Unused, Settled, Idle, TimesSent, Count;
      QuietDelivery(s, tags, View(), steps, id);
      Play(steps);
    }
  }
}
