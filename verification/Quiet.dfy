/** Who gets what.  Messages keep their source and destination on every route, so a client hears only
from its own tenant and the public one, under the same name however the message came.  While no
client comes or goes, every message reaches its destination or returns to its sender. */
module Quiet {
  import opened Broker
  import opened RouteTree
  import opened Routing
  import opened Delivery

  // ---- tenants ---------------------------------------------------------------------------

  lemma {:induction false} DotFreePrefix(tenant: string, name: string)
    requires '.' !in tenant
    ensures BeforeDot(tenant + "." + name) == tenant
    ensures AfterDot(tenant + "." + name) == name
  {
    var n := tenant + "." + name;
    if tenant == "" {
      assert n == ['.'] + name;
    } else {
      DotFreePrefix(tenant[1..], name);
      assert n[1..] == tenant[1..] + "." + name;
      assert n[0] == tenant[0];
      assert [tenant[0]] + tenant[1..] == tenant;
    }
  }

  lemma PublicTenant(tenant: string, name: string)
    requires '.' !in tenant
    ensures Public(tenant + "." + name) <==> tenant == "public"
  {
    var n := tenant + "." + name;
    DotFreePrefix(tenant, name);
    if Public(n) {
      DotFreePrefix("public", n[7..]);
      assert n == "public" + "." + n[7..];
    }
  }

  /** A prefixed name tells the tenant and the name. */
  lemma PrefixParts(c: Client)
    requires '.' !in c.tenant
    ensures BeforeDot(c.Prefix()) == c.tenant && AfterDot(c.Prefix()) == c.name
    ensures Public(c.Prefix()) <==> c.tenant == "public"
  {
    DotFreePrefix(c.tenant, c.name);
    PublicTenant(c.tenant, c.name);
  }

  /** A client is shown by its bare name to clients that are public when it is and not when it is not,
  and with its tenant to the others. */
  lemma ShownExact(c: Client, d: Client)
    requires '.' !in c.tenant && '.' !in d.tenant
    ensures Shown(c.Prefix(), d.Prefix()) == if (c.tenant == "public") == (d.tenant == "public") then c.name else c.tenant + "." + c.name
  {
    PrefixParts(c);
    PrefixParts(d);
  }

  /** Where a message goes.  A client other than a public one reaches its own tenant, or the public one
  by name; a public client reaches the public tenant, and another one that it names if a tenant in
  the list begins that name. */
  lemma DestinationExact(tenants: seq<string>, tenant: string, t: string, name: string)
    requires '.' !in t
    ensures tenant != "public" && t != "public" ==> Destination(tenants, tenant, t + "." + name) == tenant + "." + t + "." + name
    ensures t == "public" ==> Destination(tenants, tenant, t + "." + name) == "public." + name
    ensures tenant == "public" && t != "public" ==>
      Destination(tenants, tenant, t + "." + name) == if exists x :: x in tenants && x <= t then t + "." + name else "public." + t + "." + name
    ensures Destination(tenants, tenant, t) == tenant + "." + t
  {
    hide MatchesTenant;
    DotFreePrefix(t, name);
    PublicTenant(t, name);
    ListedTenant(tenants, t);
    var dest := t + "." + name;
    assert dest[|t|] == '.';
    assert tenant + "." + dest == tenant + "." + t + "." + name;
    Dotless(t);
    if t == "public" {
      assert dest == "public." + name;
    }
    if tenant == "public" {
      assert tenant + "." == "public.";
    }
  }

  lemma PublicDot(n: Name)
    requires Public(n)
    ensures '.' in n
  {
    assert n[6] == '.';
  }

  lemma Dotless(t: string)
    requires '.' !in t
    ensures !Public(t)
  {
    if Public(t) {
      PublicDot(t);
    }
  }

  lemma ListedTenant(tenants: seq<string>, head: string)
    ensures MatchesTenant(tenants, head) <==> exists x :: x in tenants && x <= head
  {
    if i :| 0 <= i < |tenants| && tenants[i] <= head {
      assert tenants[i] in tenants;
    }
  }

  /** What a client of one tenant may send to. */
  predicate Allowed(src: Name, dst: Name) {
    BeforeDot(src) == "public" || Public(dst) || BeforeDot(dst) == BeforeDot(src)
  }

  /** s_cb_send reaches the recipients it may, and its own notion of public, worked out from flags,
  is the one that the other handlers read off the names. */
  lemma SendTenants(tenants: seq<string>, c: Client, dest: string)
    requires '.' !in c.tenant
    ensures Allowed(c.Prefix(), Destination(tenants, c.tenant, dest))
    ensures (c.tenant == "public") <==> Public(c.Prefix())
    ensures SendsPublic(tenants, c.tenant, dest) <==> Public(Destination(tenants, c.tenant, dest))
  {
    DotFreePrefix(c.tenant, c.name);
    PublicTenant(c.tenant, c.name);
    DotFreePrefix(c.tenant, dest);
    PublicTenant(c.tenant, dest);
  }

  // ---- what messages say -----------------------------------------------------------------

  /** For watched identifiers, the names between which the message goes. */
  type Tags = map<Id, (Name, Name)>

  ghost predicate Says(tags: Tags, src: Name, dst: Name, id: Id) {
    id in tags && tags[id] == (src, dst) && Allowed(src, dst)
  }

  ghost predicate Registered(s: Setting, bs: map<Sock, Tables>, n: Name) {
    n in s.home && s.home[n] in bs && n in bs[s.home[n]].byName
  }

  ghost predicate UpFine(s: Setting, tags: Tags, quiet: bool, bs: map<Sock, Tables>, q: Sock, m: UpMsg) {
    match m
    case ForwardUp(src, dst, id, _) =>
      id in tags ==> Says(tags, src, dst, id) && (quiet ==> q in bs && src in Known(bs[q]))
    case _ => !quiet
  }

  ghost predicate DownFine(s: Setting, tags: Tags, quiet: bool, bs: map<Sock, Tables>, q: Sock, m: DownMsg) {
    match m
    case ForwardDown(src, dst, id, _) =>
      id in tags ==> Says(tags, src, dst, id) && (quiet ==> q in bs && dst in Known(bs[q]))
    case NoDst(dst, src, id) =>
      id in tags ==> Says(tags, src, dst, id) && (quiet ==> q in bs && src in Known(bs[q]) && Missing(s, bs, dst))
    case RegFail(_) => true
  }

  ghost predicate Missing(s: Setting, bs: map<Sock, Tables>, n: Name) {
    s.t.root in bs && n !in Known(bs[s.t.root])
  }

  /** How an error calls the missing destination to its sender: bare, but with its tenant when the
  sender is at the root and just one of the two is public. */
  ghost function CalledMissing(s: Setting, to: Name, missing: Name): string {
    if to in s.home && s.home[to] == s.t.root && Public(to) != Public(missing) then missing else AfterDot(missing)
  }

  ghost predicate EventFine(s: Setting, tags: Tags, quiet: bool, bs: map<Sock, Tables>, e: Event) {
    e.id in tags ==>
      match e
      case Data(id, to, shown) => Says(tags, tags[id].0, to, id) && shown == Shown(tags[id].0, to) && (quiet ==> Registered(s, bs, to))
      case Returned(id, to, missing, shown) => Says(tags, to, missing, id) && shown == CalledMissing(s, to, missing) && (quiet ==> Registered(s, bs, to) && Missing(s, bs, missing))
      case Dropped(_) => !quiet
  }

  ghost predicate OutFine(s: Setting, tags: Tags, quiet: bool, bs: map<Sock, Tables>, b: Sock, o: Out) {
    match o
    case Up(m) => UpFine(s, tags, quiet, bs, b, m)
    case Down(c, d) => DownFine(s, tags, quiet, bs, c, d)
    case Log(e) => EventFine(s, tags, quiet, bs, e)
    case Refused(_) => true
  }

  ghost predicate Fine(s: Setting, tags: Tags, quiet: bool, net: Net) {
    && (forall q, m :: q in net.up && m in net.up[q] ==> UpFine(s, tags, quiet, net.bs, q, m))
    && (forall q, m :: q in net.down && m in net.down[q] ==> DownFine(s, tags, quiet, net.bs, q, m))
    && (forall e :: e in net.log ==> EventFine(s, tags, quiet, net.bs, e))
  }

  lemma ActFine(s: Setting, tags: Tags, quiet: bool, net: Net, b: Sock, r: (Tables, seq<Out>))
    requires Fine(s, tags, quiet, net) && b in net.bs
    requires quiet ==> r.0 == net.bs[b]
    requires |r.1| <= 1 && (r.1 != [] ==> OutFine(s, tags, quiet, net.bs, b, r.1[0]))
    ensures Fine(s, tags, quiet, Act(net, b, r))
  {
    hide Known, Says, Shown, Registered;
    EmitOne(net.(bs := net.bs[b := r.0]), b, r.1);
    if quiet {
      assert net.bs[b := r.0] == net.bs;
    }
  }

  // ---- the tables while nothing changes --------------------------------------------------

  ghost predicate NoControl(net: Net) {
    forall q, m :: q in net.up && m in net.up[q] ==> m.ForwardUp?
  }

  lemma {:induction false} NothingToReplay(ms: seq<UpMsg>, names: set<Name>)
    requires forall m :: m in ms ==> m.ForwardUp?
    ensures Replay(ms, names) == names
  {
    if ms != [] {
      assert ms[0] in ms;
      NothingToReplay(ms[1..], names);
    }
  }

  /** With no control message in flight, a broker's entries for a child are what the child knows. */
  lemma InStep(s: Setting, net: Net, q: Sock)
    requires WellFormed(s.t) && Inv(s, net) && NoControl(net) && q in s.t.parent
    ensures s.t.parent[q] in net.bs && q in net.bs && From(net.bs[s.t.parent[q]], q) == Known(net.bs[q])
  {
    hide WellFormed, BrokerOk, Known, From;
    ParentOf(s.t, q);
    assert Edge(s, net, q);
    NothingToReplay(net.up[q], From(net.bs[s.t.parent[q]], q));
  }

  /** What a broker knows, every broker above it knows. */
  lemma {:induction false} RootKnows(s: Setting, net: Net, b: Sock)
    requires WellFormed(s.t) && Inv(s, net) && NoControl(net) && b in s.t.depth && b in net.bs && s.t.root in net.bs
    ensures Known(net.bs[b]) <= Known(net.bs[s.t.root])
    decreases s.t.depth[b]
  {
    hide WellFormed, BrokerOk, Edge;
    NotRoot(s, b);
    if b in s.t.parent {
      ParentOf(s.t, b);
      InStep(s, net, b);
      RootKnows(s, net, s.t.parent[b]);
    }
  }

  /** A name that the root does not know is registered nowhere. */
  lemma MissingEverywhere(s: Setting, net: Net, b: Sock, n: Name)
    requires WellFormed(s.t) && Inv(s, net) && NoControl(net) && b in s.t.depth && b in net.bs && Missing(s, net.bs, n)
    ensures n !in Known(net.bs[b])
  {
    RootKnows(s, net, b);
  }

  // ---- the handlers ----------------------------------------------------------------------

  /** quiet holds only while the tables are in step. */
  ghost predicate Calm(s: Setting, quiet: bool, net: Net) {
    (quiet ==> NoControl(net)) && Undotted(net.bs)
  }

  /** The tenants of registered clients hold no dot. */
  ghost predicate Undotted(bs: map<Sock, Tables>) {
    forall b, n :: b in bs && n in bs[b].byName ==> '.' !in bs[b].byName[n].tenant
  }

  lemma Member(s: Setting, net: Net, b: Sock)
    requires WellFormed(s.t) && Inv(s, net) && b in net.bs
    ensures BrokerOk(s, b, net.bs[b]) && b in s.t.depth
  {
  }

  /** The reaction r of broker b keeps what is said of messages, and its tables if need be. */
  ghost predicate Stays(s: Setting, tags: Tags, quiet: bool, bs: map<Sock, Tables>, b: Sock, r: (Tables, seq<Out>)) {
    && (quiet ==> b in bs && r.0 == bs[b])
    && (r.1 != [] ==> OutFine(s, tags, quiet, bs, b, r.1[0]))
  }

  lemma UpStays(s: Setting, tags: Tags, quiet: bool, net: Net, q: Sock)
    requires q in s.t.parent && q in net.up && net.up[q] != [] && s.t.parent[q] in net.bs
    requires WellFormed(s.t) && Inv(s, net) && Calm(s, quiet, net) && Fine(s, tags, quiet, net)
    ensures Stays(s, tags, quiet, net.bs, s.t.parent[q], HandleUp(net.bs[s.t.parent[q]], q, net.up[q][0]))
  {
    hide WellFormed, Inv, HandleUp, OutFine, UpFine, Calm;
    var m := net.up[q][0];
    assert m in net.up[q] && UpFine(s, tags, quiet, net.bs, q, m);
    if m.ForwardUp? {
      TablesStay(net.bs[s.t.parent[q]], q, m);
      if m.id in tags {
        ForwardUpStays(s, tags, quiet, net, q);
      } else {
        Unwatched(s, tags, quiet, net, q);
      }
    } else {
      ControlStays(s, tags, quiet, net.bs, s.t.parent[q], net.bs[s.t.parent[q]], q, m);
    }
  }

  lemma TablesStay(tb: Tables, q: Sock, m: UpMsg)
    requires m.ForwardUp?
    ensures HandleUp(tb, q, m).0 == tb
  {
  }

  lemma ControlStays(s: Setting, tags: Tags, quiet: bool, bs: map<Sock, Tables>, b: Sock, tb: Tables, q: Sock, m: UpMsg)
    requires !m.ForwardUp? && UpFine(s, tags, quiet, bs, q, m)
    ensures !quiet && (HandleUp(tb, q, m).1 != [] ==> OutFine(s, tags, quiet, bs, b, HandleUp(tb, q, m).1[0]))
  {
  }

  lemma Unwatched(s: Setting, tags: Tags, quiet: bool, net: Net, q: Sock)
    requires q in s.t.parent && q in net.up && net.up[q] != [] && s.t.parent[q] in net.bs
    requires net.up[q][0].ForwardUp? && net.up[q][0].id !in tags
    ensures var r := HandleUp(net.bs[s.t.parent[q]], q, net.up[q][0]); r.1 != [] ==> OutFine(s, tags, quiet, net.bs, s.t.parent[q], r.1[0])
  {
  }

  lemma ForwardUpStays(s: Setting, tags: Tags, quiet: bool, net: Net, q: Sock)
    requires WellFormed(s.t) && Inv(s, net) && Calm(s, quiet, net)
    requires q in s.t.parent && q in net.up && net.up[q] != [] && s.t.parent[q] in net.bs
    requires net.up[q][0].ForwardUp? && net.up[q][0].id in tags && UpFine(s, tags, quiet, net.bs, q, net.up[q][0])
    ensures var r := HandleUp(net.bs[s.t.parent[q]], q, net.up[q][0]); r.1 != [] ==> OutFine(s, tags, quiet, net.bs, s.t.parent[q], r.1[0])
  {
    hide WellFormed, Inv, Shown;
    var m := net.up[q][0];
    var p := s.t.parent[q];
    var tb := net.bs[p];
    Member(s, net, p);
    Placed(s, p, tb, q);
    if quiet {
      InStep(s, net, q);
      AtTop(s, p, tb);
      if m.dst in tb.dist {
        Routed(s, p, tb, m.dst);
        InStep(s, net, tb.dist[m.dst]);
      }
    }
  }

  /** Local names are registered; at the root, unknown names are missing. */
  lemma AtTop(s: Setting, b: Sock, tb: Tables)
    requires WellFormed(s.t) && BrokerOk(s, b, tb)
    ensures forall n :: n in tb.byName ==> n in s.home && s.home[n] == b
    ensures tb.isRoot <==> b == s.t.root
  {
  }

  lemma DownStays(s: Setting, tags: Tags, quiet: bool, net: Net, q: Sock)
    requires q in s.t.parent && q in net.down && net.down[q] != [] && q in net.bs
    requires WellFormed(s.t) && Inv(s, net) && Calm(s, quiet, net) && Fine(s, tags, quiet, net)
    ensures Stays(s, tags, quiet, net.bs, q, HandleDown(net.bs[q], net.down[q][0]))
  {
    hide WellFormed, BrokerOk, EdgeOk, HandleDown, OutFine, DownFine;
    var m := net.down[q][0];
    assert m in net.down[q] && DownFine(s, tags, quiet, net.bs, q, m) && Edge(s, net, q) && DownOk(s, q, m);
    var tb := net.bs[q];
    Member(s, net, q);
    AtTop(s, q, tb);
    if quiet {
      DownRouted(s, net, q, tb);
    }
    ParentOf(s.t, q);
    DownHandled(s, tags, quiet, net.bs, q, m);
  }

  lemma DownHandled(s: Setting, tags: Tags, quiet: bool, bs: map<Sock, Tables>, q: Sock, m: DownMsg)
    requires q in bs && DownFine(s, tags, quiet, bs, q, m) && !m.RegFail? && q != s.t.root
    requires forall n :: n in bs[q].byName ==> n in s.home && s.home[n] == q
    requires quiet ==> forall n :: n in bs[q].dist ==> bs[q].dist[n] in bs && n in Known(bs[bs[q].dist[n]])
    ensures HandleDown(bs[q], m).0 == bs[q]
    ensures HandleDown(bs[q], m).1 != [] ==> OutFine(s, tags, quiet, bs, q, HandleDown(bs[q], m).1[0])
  {
    hide Shown, Allowed;
  }

  /** Entries lead to children that know the name. */
  lemma DownRouted(s: Setting, net: Net, b: Sock, tb: Tables)
    requires WellFormed(s.t) && Inv(s, net) && NoControl(net) && b in net.bs && tb == net.bs[b]
    ensures forall n :: n in tb.dist ==> tb.dist[n] in net.bs && n in Known(net.bs[tb.dist[n]])
  {
    hide WellFormed, Known, Edge, NoControl;
    Member(s, net, b);
    forall n | n in tb.dist ensures tb.dist[n] in net.bs && n in Known(net.bs[tb.dist[n]]) {
      Routed(s, b, tb, n);
      InStep(s, net, tb.dist[n]);
    }
  }

  // ---- every step ------------------------------------------------------------------------

  /** A watched identifier is used for one source and destination, clients register under tenants
  without a dot, and quiet runs have no comings and goings. */
  ghost predicate Proper(s: Setting, tags: Tags, quiet: bool, net: Net, a: Step) {
    && (quiet ==> !a.Join? && !a.Leave?)
    && (a.Join? ==> '.' !in a.client.tenant)
    && (a.Send? && a.id in tags && a.at in net.bs && a.conn in net.bs[a.at].byConn ==>
          var c := net.bs[a.at].byConn[a.conn]; tags[a.id] == (c.Prefix(), Destination(s.tenants, c.tenant, a.dest)))
  }

  lemma SendStays(s: Setting, tags: Tags, quiet: bool, net: Net, a: Step)
    requires a.Send? && a.at in net.bs && Proper(s, tags, quiet, net, a)
    requires WellFormed(s.t) && Inv(s, net) && Calm(s, quiet, net)
    ensures Stays(s, tags, quiet, net.bs, a.at, (net.bs[a.at], OnSend(net.bs[a.at], s.tenants, a.conn, a.dest, a.id)))
  {
    hide WellFormed, BrokerOk, Edge, NoControl;
    var tb := net.bs[a.at];
    Member(s, net, a.at);
    AtTop(s, a.at, tb);
    if quiet {
      DownRouted(s, net, a.at, tb);
    }
    if a.conn in tb.byConn {
      DotFree(s, net, a.at, a.conn);
      SendTenants(s.tenants, tb.byConn[a.conn], a.dest);
      SendHandled(s, tags, quiet, net.bs, a);
    }
  }

  lemma DotFree(s: Setting, net: Net, b: Sock, conn: Conn)
    requires WellFormed(s.t) && b in net.bs && BrokerOk(s, b, net.bs[b]) && conn in net.bs[b].byConn && Undotted(net.bs)
    ensures '.' !in net.bs[b].byConn[conn].tenant && net.bs[b].byConn[conn].Prefix() in net.bs[b].byName
  {
    assert Paired(net.bs[b], net.bs[b].byConn[conn]);
  }

  lemma SendHandled(s: Setting, tags: Tags, quiet: bool, bs: map<Sock, Tables>, a: Step)
    requires a.Send? && a.at in bs && a.conn in bs[a.at].byConn && bs[a.at].byConn[a.conn].Prefix() in bs[a.at].byName
    requires a.id in tags ==> tags[a.id] == (bs[a.at].byConn[a.conn].Prefix(), Destination(s.tenants, bs[a.at].byConn[a.conn].tenant, a.dest))
    requires forall n :: n in bs[a.at].byName ==> n in s.home && s.home[n] == a.at
    requires bs[a.at].isRoot <==> a.at == s.t.root
    requires quiet ==> forall n :: n in bs[a.at].dist ==> bs[a.at].dist[n] in bs && n in Known(bs[bs[a.at].dist[n]])
    requires var c := bs[a.at].byConn[a.conn]; var dst := Destination(s.tenants, c.tenant, a.dest);
      Allowed(c.Prefix(), dst) && (c.tenant == "public" <==> Public(c.Prefix())) && (SendsPublic(s.tenants, c.tenant, a.dest) <==> Public(dst))
    ensures Stays(s, tags, quiet, bs, a.at, (bs[a.at], OnSend(bs[a.at], s.tenants, a.conn, a.dest, a.id)))
  {
    hide Destination, SendsPublic, Allowed, Public, AfterDot, Client.Prefix;
  }

  lemma PoppedFine(s: Setting, tags: Tags, quiet: bool, net: Net, a: Step)
    requires Fine(s, tags, quiet, net)
    requires a.RecvUp? ==> a.from in net.up && net.up[a.from] != []
    requires a.RecvDown? ==> a.to in net.down && net.down[a.to] != []
    ensures Fine(s, tags, quiet, Taken(net, a))
  {
    hide UpFine, DownFine, EventFine;
  }

  lemma ReactionStays(s: Setting, tags: Tags, quiet: bool, net: Net, a: Step)
    requires WellFormed(s.t) && Inv(s, net) && Enabled(s, net, a) && Actor(s.t, a) in net.bs
    requires Calm(s, quiet, net) && Fine(s, tags, quiet, net) && Proper(s, tags, quiet, net, a)
    ensures Stays(s, tags, quiet, net.bs, Actor(s.t, a), Reaction(s, net, a))
  {
    hide WellFormed, BrokerOk, Edge, Calm, HandleUp, HandleDown, OnSend, Fine;
    match a
    case RecvUp(q) => UpStays(s, tags, quiet, net, q);
    case RecvDown(q) => DownStays(s, tags, quiet, net, q);
    case Send(_, _, _, _) => SendStays(s, tags, quiet, net, a);
    case Join(_, _) =>
    case Leave(_, _) =>
  }

  lemma StepFine(s: Setting, tags: Tags, quiet: bool, net: Net, a: Step)
    requires WellFormed(s.t) && Inv(s, net) && Enabled(s, net, a)
    requires Calm(s, quiet, net) && Fine(s, tags, quiet, net) && Proper(s, tags, quiet, net, a)
    ensures Calm(s, quiet, Next(s, net, a)) && Fine(s, tags, quiet, Next(s, net, a))
  {
    hide WellFormed, BrokerOk, Edge, NoControl, Fine, Act, Reaction, OutFine;
    ActorIn(s.t, a);
    ReactionStays(s, tags, quiet, net, a);
    StepSound(s, net, a);
    PoppedFine(s, tags, quiet, net, a);
    ActFine(s, tags, quiet, Taken(net, a), Actor(s.t, a), Reaction(s, net, a));
    if quiet {
      FineNoControl(s, tags, Next(s, net, a));
    }
    StaysUndotted(s, net, a);
  }

  lemma StaysUndotted(s: Setting, net: Net, a: Step)
    requires WellFormed(s.t) && Inv(s, net) && Enabled(s, net, a) && Undotted(net.bs) && (a.Join? ==> '.' !in a.client.tenant)
    ensures Undotted(Next(s, net, a).bs)
  {
    hide WellFormed, BrokerOk, Edge, Act, Reaction;
    ActorIn(s.t, a);
    FewerNames(s, net, a);
  }

  /** Only a registration adds a local name. */
  lemma FewerNames(s: Setting, net: Net, a: Step)
    requires WellFormed(s.t) && Inv(s, net) && Enabled(s, net, a) && Actor(s.t, a) in net.bs
    ensures var old', new' := net.bs[Actor(s.t, a)].byName, Reaction(s, net, a).0.byName;
      forall n :: n in new' ==> (n in old' && new'[n] == old'[n]) || (a.Join? && new'[n] == a.client)
  {
    hide WellFormed, BrokerOk, Edge, OnSend, OnForwardUp, OnForwardDown, OnNoDst;
  }

  lemma FineNoControl(s: Setting, tags: Tags, net: Net)
    requires Fine(s, tags, true, net)
    ensures NoControl(net)
  {
    forall q, m | q in net.up && m in net.up[q] ensures m.ForwardUp? {
      assert UpFine(s, tags, true, net.bs, q, m);
    }
  }

  // ---- every run -------------------------------------------------------------------------

  ghost predicate ProperRun(s: Setting, tags: Tags, quiet: bool, net: Net, steps: seq<Step>)
    requires WellFormed(s.t) && Inv(s, net) && Run(s, net, steps)
    decreases |steps|
  {
    steps == [] || (Proper(s, tags, quiet, net, steps[0]) && (Keeps(s, net, steps[0]); ProperRun(s, tags, quiet, Next(s, net, steps[0]), steps[1..])))
  }

  lemma {:induction false} RunFine(s: Setting, tags: Tags, quiet: bool, net: Net, steps: seq<Step>)
    requires WellFormed(s.t) && Inv(s, net) && Run(s, net, steps) && ProperRun(s, tags, quiet, net, steps)
    requires Calm(s, quiet, net) && Fine(s, tags, quiet, net)
    ensures var net' := After(s, net, steps); Calm(s, quiet, net') && Fine(s, tags, quiet, net')
    decreases |steps|
  {
    hide WellFormed, BrokerOk, Edge, Next, Enabled, Calm, Fine, Proper;
    if steps != [] {
      Keeps(s, net, steps[0]);
      StepFine(s, tags, quiet, net, steps[0]);
      RunFine(s, tags, quiet, Next(s, net, steps[0]), steps[1..]);
    }
  }

  /** Nothing in flight and no event carries a watched identifier yet. */
  ghost predicate Unused(tags: Tags, net: Net) {
    && (forall q, m :: q in net.up && m in net.up[q] && m.ForwardUp? ==> m.id !in tags)
    && (forall q, m :: q in net.down && m in net.down[q] && (m.ForwardDown? || m.NoDst?) ==> m.id !in tags)
    && (forall e: Event :: e in net.log ==> e.id !in tags)
  }

  lemma UnusedFine(s: Setting, tags: Tags, quiet: bool, net: Net)
    requires Unused(tags, net) && Calm(s, quiet, net)
    ensures Fine(s, tags, quiet, net)
  {
    forall q, m | q in net.up && m in net.up[q] ensures UpFine(s, tags, quiet, net.bs, q, m) {
      if quiet {
        assert m.ForwardUp?;
      }
    }
  }

  /** Whatever route a message takes and whoever comes and goes: it is delivered only to the client
  its sender named, to one of the sender's own tenant or of the public one unless the sender is
  public, and under the same source name on every route. */
  lemma TenantsSeparate(s: Setting, tags: Tags, net: Net, steps: seq<Step>, e: Event)
    requires WellFormed(s.t) && Inv(s, net) && Run(s, net, steps) && ProperRun(s, tags, false, net, steps)
    requires Unused(tags, net) && Undotted(net.bs)
    requires e in After(s, net, steps).log && e.Data? && e.id in tags
    ensures e.to == tags[e.id].1 && Allowed(tags[e.id].0, e.to) && e.shown == Shown(tags[e.id].0, e.to)
  {
    hide WellFormed, Inv, After, Run, ProperRun;
    UnusedFine(s, tags, false, net);
    RunFine(s, tags, false, net, steps);
    assert EventFine(s, tags, false, After(s, net, steps).bs, e);
  }

  /** An error that reaches its sender names what was sent to, by the rule of CalledMissing. */
  lemma MissingNamed(s: Setting, tags: Tags, net: Net, steps: seq<Step>, e: Event)
    requires WellFormed(s.t) && Inv(s, net) && Run(s, net, steps) && ProperRun(s, tags, false, net, steps)
    requires Unused(tags, net) && Undotted(net.bs)
    requires e in After(s, net, steps).log && e.Returned? && e.id in tags
    ensures (e.to, e.missing) == tags[e.id] && e.shown == CalledMissing(s, e.to, e.missing)
  {
    hide WellFormed, Inv, After, Run, ProperRun, CalledMissing;
    UnusedFine(s, tags, false, net);
    RunFine(s, tags, false, net, steps);
    assert EventFine(s, tags, false, After(s, net, steps).bs, e);
  }

  lemma {:induction false} AfterDotShorter(n: Name)
    requires n != ""
    ensures |AfterDot(n)| < |n|
  {
    if n[0] != '.' && n[1..] != "" {
      AfterDotShorter(n[1..]);
    }
  }

  /** The missing name is called the same at the root as elsewhere exactly when both ends are public or
  neither is. */
  lemma SameCall(s: Setting, r: Setting, to: Name, missing: Name)
    requires to in s.home && s.home[to] == s.t.root && to in r.home && r.home[to] != r.t.root && missing != ""
    ensures CalledMissing(s, to, missing) == CalledMissing(r, to, missing) <==> Public(to) == Public(missing)
  {
    AfterDotShorter(missing);
  }

  /** A client of tenant t that sends to "public.b", which nobody has: told "public.b" at the root, and "b"
  anywhere else. */
  lemma ToldDifferently(conn: Conn, id: Id)
    ensures var c := Client("t", "a", conn);
      var b := Tables(true, map[conn := c], map["t.a" := c], map[], {});
      && OnSend(b, [], conn, "public.b", id) == [Log(Returned(id, "t.a", "public.b", "public.b"))]
      && OnNoDst(b.(isRoot := false), "public.b", "t.a", id) == [Log(Returned(id, "t.a", "public.b", "b"))]
  {
    hide AfterDot, Public;
    var c := Client("t", "a", conn);
    assert c.Prefix() == "t.a";
    BareB();
  }

  lemma BareB()
    ensures AfterDot("public.b") == "b" && Public("public.b")
  {
    DotFreePrefix("public", "b");
    assert "public" + "." + "b" == "public.b";
  }

  /** No message waits anywhere. */
  ghost predicate Idle(net: Net) {
    (forall q :: q in net.up ==> net.up[q] == []) && (forall q :: q in net.down ==> net.down[q] == [])
  }

  lemma {:induction false} NothingHeld(qs: seq<Sock>, net: Net, k: Meter)
    requires Idle(net)
    ensures Sum(qs, HeldBy(net, k)) == 0
  {
    if qs != [] {
      NothingHeld(qs[1..], net, k);
    }
  }

  lemma {:induction false} LoadNone<M>(q: Sock, ms: seq<M>, w: (Sock, M) -> nat)
    requires forall m :: m in ms ==> w(q, m) == 0
    ensures Load(q, ms, w) == 0
  {
    if ms != [] {
      assert ms[0] in ms;
      LoadNone(q, ms[1..], w);
    }
  }

  lemma {:induction false} LoggedNone(log: seq<Event>, w: Event -> nat)
    requires forall e :: e in log ==> w(e) == 0
    ensures Logged(log, w) == 0
  {
    if log != [] {
      assert log[|log| - 1] in log;
      LoggedNone(log[..|log| - 1], w);
    }
  }

  lemma {:induction false} SumNone(qs: seq<Sock>, f: Sock -> nat)
    requires forall q :: q in qs ==> f(q) == 0
    ensures Sum(qs, f) == 0
  {
    if qs != [] {
      assert qs[0] in qs;
      SumNone(qs[1..], f);
    }
  }

  /** An identifier that is not in use counts nothing. */
  lemma UnusedCount(t: Topo, tags: Tags, net: Net, id: Id)
    requires Unused(tags, net) && id in tags
    ensures Total(t, net, Count(id)) == 0
  {
    var k := Count(id);
    forall q | q in t.brokers ensures HeldBy(net, k)(q) == 0 {
      if q in net.up {
        LoadNone(q, net.up[q], k.up);
      }
      if q in net.down {
        LoadNone(q, net.down[q], k.down);
      }
    }
    SumNone(t.brokers, HeldBy(net, k));
    LoggedNone(net.log, k.event);
  }

  /** With no control message in flight and nobody coming or going, every message that a registered
  client sends is in exactly one place, and in the log once the channels run empty: it is handed to the client
  named, which is registered, or returned to its sender because nobody is registered under the
  name.  It is never dropped. */
  lemma QuietDelivery(s: Setting, tags: Tags, net: Net, steps: seq<Step>, id: Id)
    requires WellFormed(s.t) && Inv(s, net) && Run(s, net, steps) && ProperRun(s, tags, true, net, steps)
    requires NoControl(net) && Undotted(net.bs) && Unused(tags, net) && id in tags
    ensures var net' := After(s, net, steps);
      && Total(s.t, net', Count(id)) == TimesSent(s, net, steps, id)
      && (Idle(net') ==> Logged(net'.log, Count(id).event) == TimesSent(s, net, steps, id))
    ensures forall e: Event :: e in After(s, net, steps).log && e.id == id ==> Settled(s, tags, After(s, net, steps), e)
  {
    hide WellFormed, Inv, After, Run, ProperRun, TimesSent, Count;
    UnusedFine(s, tags, true, net);
    UnusedCount(s.t, tags, net, id);
    Conserved(s, net, steps, id);
    RunFine(s, tags, true, net, steps);
    var net' := After(s, net, steps);
    if Idle(net') {
      NothingHeld(s.t.brokers, net', Count(id));
    }
    forall e: Event | e in net'.log && e.id == id ensures Settled(s, tags, net', e) {
      assert EventFine(s, tags, true, net'.bs, e);
      SettledSo(s, tags, net', e);
    }
  }

  /** The message of event e reached the client it named, or came back because that name is
  registered nowhere. */
  ghost predicate Settled(s: Setting, tags: Tags, net: Net, e: Event) {
    && e.id in tags
    && match e
       case Data(id, to, _) => to == tags[id].1 && Registered(s, net.bs, to)
       case Returned(id, to, missing, _) => (to, missing) == tags[id] && Registered(s, net.bs, to) && !Registered(s, net.bs, missing)
       case Dropped(_) => false
  }

  lemma SettledSo(s: Setting, tags: Tags, net: Net, e: Event)
    requires WellFormed(s.t) && Inv(s, net) && NoControl(net)
    requires e.id in tags && EventFine(s, tags, true, net.bs, e)
    ensures Settled(s, tags, net, e)
  {
    hide WellFormed, Edge, BrokerOk;
    if e.Returned? && Registered(s, net.bs, e.missing) {
      MissingEverywhere(s, net, s.home[e.missing], e.missing);
    }
  }

  // ---- running empty ---------------------------------------------------------------------

  lemma Waiting(s: Setting, net: Net) returns (a: Step)
    requires WellFormed(s.t) && Inv(s, net) && !Idle(net)
    ensures Receives(a) && Enabled(s, net, a)
  {
    hide WellFormed, BrokerOk, Edge;
    if q :| q in net.up && net.up[q] != [] {
      a := RecvUp(q);
    } else {
      var q :| q in net.down && net.down[q] != [];
      a := RecvDown(q);
    }
  }

  /** From every state there is a run of receptions that empties all channels. */
  lemma {:induction false} RunsEmpty(s: Setting, net: Net) returns (steps: seq<Step>)
    requires WellFormed(s.t) && Inv(s, net)
    ensures (forall a :: a in steps ==> Receives(a)) && Run(s, net, steps) && Idle(After(s, net, steps))
    decreases Total(s.t, net, Budget(s))
  {
    hide WellFormed, BrokerOk, Edge, Next, Total, Enabled, Budget, Idle;
    if Idle(net) {
      return [];
    }
    var a := Waiting(s, net);
    Keeps(s, net, a);
    StepSettles(s, net, a);
    var rest := RunsEmpty(s, Next(s, net, a));
    steps := [a] + rest;
    assert steps[1..] == rest;
  }

  lemma {:induction false} OnlyReceived(s: Setting, tags: Tags, net: Net, steps: seq<Step>, id: Id)
    requires WellFormed(s.t) && Inv(s, net) && Run(s, net, steps) && forall a :: a in steps ==> Receives(a)
    ensures ProperRun(s, tags, true, net, steps) && TimesSent(s, net, steps, id) == 0
    decreases |steps|
  {
    hide WellFormed, BrokerOk, Edge, Next, Enabled;
    if steps != [] {
      assert steps[0] in steps;
      Keeps(s, net, steps[0]);
      OnlyReceived(s, tags, Next(s, net, steps[0]), steps[1..], id);
    }
  }

  /** However a quiet run stands, some further receptions empty the channels, and then every message
  sent is in the log, handed to the client it named or returned because there is none. */
  lemma QuietSettles(s: Setting, tags: Tags, net: Net, steps: seq<Step>, id: Id) returns (more: seq<Step>)
    requires WellFormed(s.t) && Inv(s, net) && Run(s, net, steps) && ProperRun(s, tags, true, net, steps)
    requires NoControl(net) && Undotted(net.bs) && Unused(tags, net) && id in tags
    ensures (forall a :: a in more ==> Receives(a)) && |more| <= Total(s.t, After(s, net, steps), Budget(s))
    ensures Run(s, After(s, net, steps), more)
    ensures var net' := After(s, After(s, net, steps), more);
      && Idle(net')
      && Logged(net'.log, Count(id).event) == TimesSent(s, net, steps, id)
      && (forall e: Event :: e in net'.log && e.id == id ==> Settled(s, tags, net', e))
  {
    hide WellFormed, Inv, After, Run, ProperRun, TimesSent, Count, Budget;
    QuietDelivery(s, tags, net, steps, id);
    UnusedFine(s, tags, true, net);
    RunFine(s, tags, true, net, steps);
    var mid := After(s, net, steps);
    more := RunsEmpty(s, mid);
    OnlyReceived(s, tags, mid, more, id);
    Settles(s, mid, more);
    RunFine(s, tags, true, mid, more);
    Conserved(s, mid, more, id);
    var net' := After(s, mid, more);
    NothingHeld(s.t.brokers, net', Count(id));
    forall e: Event | e in net'.log && e.id == id ensures Settled(s, tags, net', e) {
      assert EventFine(s, tags, true, net'.bs, e);
      SettledSo(s, tags, net', e);
    }
  }
}
