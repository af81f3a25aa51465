/** One broker's client tables and its handlers for registration, forwarding and errors
(src/lib/broker.c, src/lib/htable.c).  Names are prefixed names, "tenant.client". */
module Broker {
  type Name = string
  type Sock = nat
  type Cookie = nat
  type Id = nat

  datatype Conn = Conn(sock: Sock, cookie: Cookie)

  datatype Client = Client(tenant: string, name: string, conn: Conn)
  {
    function Prefix(): Name { tenant + "." + name }
  }

  /** Messages on the dealer socket, towards the higher broker.  hops counts how often a
  forwarded message has been put on a wire. */
  datatype UpMsg = AddDcl(name: Name) | UnregDcli(name: Name) | ForwardUp(src: Name, dst: Name, id: Id, hops: nat)

  /** Messages on the router socket, towards a lower broker. */
  datatype DownMsg = ForwardDown(src: Name, dst: Name, id: Id, hops: nat) | NoDst(dst: Name, src: Name, id: Id) | RegFail(name: Name)

  /** What becomes of a message: handed to client `to` under the source name `shown`, sent back to
  its sender as an error that calls the missing destination `shown`, or lost. */
  datatype Event = Data(id: Id, to: Name, shown: string) | Returned(id: Id, to: Name, missing: Name, shown: string) | Dropped(id: Id)

  /** Everything a handler sends. */
  datatype Out = Up(u: UpMsg) | Down(child: Sock, d: DownMsg) | Log(e: Event) | Refused(conn: Conn)

  datatype Tables = Tables(isRoot: bool, byConn: map<Conn, Client>, byName: map<Name, Client>, dist: map<Name, Sock>, children: set<Sock>)

  function Known(b: Tables): set<Name> {
    b.byName.Keys + b.dist.Keys
  }

  /** The names for which broker b would forward to q. */
  function From(b: Tables, q: Sock): set<Name> {
    set n | n in b.dist && b.dist[n] == q
  }

  /** add_cli_up and del_cli_up send only where there is a higher broker. */
  function Tell(b: Tables, m: UpMsg): seq<Out> {
    if b.isRoot then [] else [Up(m)]
  }

  /** The checks of s_cb_challok and insert_local_client. */
  predicate Admits(b: Tables, c: Client) {
    c.name != "public" && c.Prefix() !in b.dist && c.conn !in b.byConn && c.Prefix() !in b.byName
  }

  // the registration part of s_cb_challok, with insert_local_client
  function Register(b: Tables, c: Client): (Tables, seq<Out>) {
    if c.name == "public" then (b, [])
    else if !Admits(b, c) then (b, [Refused(c.conn)])
    else (b.(byConn := b.byConn[c.conn := c], byName := b.byName[c.Prefix() := c]), Tell(b, AddDcl(c.Prefix())))
  }

  // s_cb_unreg_cli
  function Unregister(b: Tables, conn: Conn): (Tables, seq<Out>) {
    if conn in b.byConn then
      var n := b.byConn[conn].Prefix();
      (b.(byConn := b.byConn - {conn}, byName := b.byName - {n}), Tell(b, UnregDcli(n)))
    else (b, [])
  }

  // s_cb_adddcl
  function OnAddDcl(b: Tables, child: Sock, n: Name): (Tables, seq<Out>) {
    if child !in b.children then (b, [])
    else if n in b.byName then (b, [Down(child, RegFail(n))])
    else if n in b.dist then (b, [Down(child, RegFail(n))])
    else (b.(dist := b.dist[n := child]), Tell(b, AddDcl(n)))
  }

  // s_cb_unreg_dist_cli: whichever child announced the name
  function OnUnregDcli(b: Tables, child: Sock, n: Name): (Tables, seq<Out>) {
    if child !in b.children then (b, [])
    else if n in b.dist then (b.(dist := b.dist - {n}), Tell(b, UnregDcli(n)))
    else (b, [])
  }

  // the case DD_ERROR_REGFAIL of s_cb_high_error
  function OnRegFail(b: Tables, n: Name): (Tables, seq<Out>) {
    if n in b.byName then
      var c := b.byName[n].conn;
      (b.(byConn := b.byConn - {c}, byName := b.byName - {n}), [Refused(c)])
    else if n in b.dist then (b.(dist := b.dist - {n}), [Down(b.dist[n], RegFail(n))])
    else (b, [])
  }

  predicate Public(n: Name) {
    "public." <= n
  }

  /** The part of a prefixed name after its first dot. */
  function AfterDot(n: Name): string {
    if n == "" then "" else if n[0] == '.' then n[1..] else AfterDot(n[1..])
  }

  /** What forward_locally shows as the source when a message arrives from another broker. */
  function Shown(src: Name, dst: Name): string {
    if Public(src) == Public(dst) then AfterDot(src) else src
  }

  // s_cb_forward_dsock
  function OnForwardDown(b: Tables, src: Name, dst: Name, id: Id, hops: nat): seq<Out> {
    if dst in b.byName then [Log(Data(id, dst, Shown(src, dst)))]
    else if dst in b.dist then [Down(b.dist[dst], ForwardDown(src, dst, id, hops + 1))]
    else if b.isRoot then [Log(Dropped(id))]
    else [Up(ForwardUp(src, dst, id, hops + 1))]
  }

  // s_cb_forward_rsock
  function OnForwardUp(b: Tables, child: Sock, src: Name, dst: Name, id: Id, hops: nat): seq<Out> {
    if child !in b.children then [Log(Dropped(id))]
    else if dst in b.byName then [Log(Data(id, dst, Shown(src, dst)))]
    else if dst in b.dist then [Down(b.dist[dst], ForwardDown(src, dst, id, hops + 1))]
    else if b.isRoot then [Down(child, NoDst(dst, src, id))]
    else [Up(ForwardUp(src, dst, id, hops + 1))]
  }

  // the case DD_ERROR_NODST of s_cb_high_error
  function OnNoDst(b: Tables, dst: Name, src: Name, id: Id): seq<Out> {
    if src in b.byName then [Log(Returned(id, src, dst, AfterDot(dst)))]
    else if src in b.dist then [Down(b.dist[src], NoDst(dst, src, id))]
    else [Log(Dropped(id))]
  }

  predicate MatchesTenant(tenants: seq<string>, head: string) {
    exists i :: 0 <= i < |tenants| && tenants[i] <= head
  }

  function BeforeDot(n: string): string {
    if n == "" || n[0] == '.' then "" else [n[0]] + BeforeDot(n[1..])
  }

  /** The destination s_cb_send makes of what the client asked for. */
  function Destination(tenants: seq<string>, tenant: string, dest: string): Name {
    if Public(dest) then dest
    else if tenant == "public" && '.' in dest && MatchesTenant(tenants, BeforeDot(dest)) then dest
    else tenant + "." + dest
  }

  /** The flag dstpublic as s_cb_send has it when it comes to route the message. */
  predicate SendsPublic(tenants: seq<string>, tenant: string, dest: string) {
    Public(dest) || (tenant == "public" && !('.' in dest && MatchesTenant(tenants, BeforeDot(dest))))
  }

  // s_cb_send
  function OnSend(b: Tables, tenants: seq<string>, conn: Conn, dest: string, id: Id): seq<Out> {
    if conn !in b.byConn then []
    else
      var c := b.byConn[conn];
      var src, dst := c.Prefix(), Destination(tenants, c.tenant, dest);
      var strip := (c.tenant == "public") == SendsPublic(tenants, c.tenant, dest);
      if dst in b.byName then [Log(Data(id, dst, if strip then AfterDot(src) else src))]
      else if dst in b.dist then [Down(b.dist[dst], ForwardDown(src, dst, id, 1))]
      else if b.isRoot then [Log(Returned(id, src, dst, if strip then AfterDot(dst) else dst))]
      else [Up(ForwardUp(src, dst, id, 1))]
  }

  // ---- what a broker keeps ---------------------------------------------------------------

  /** A local record sits in both tables, each time under its own key. */
  ghost predicate Paired(b: Tables, c: Client) {
    && c.conn in b.byConn && b.byConn[c.conn] == c
    && c.Prefix() in b.byName && b.byName[c.Prefix()] == c
  }

  /** The two tables of local clients hold the same records, each under its own keys, and no
  name is both local and distant. */
  ghost predicate TablesOk(b: Tables) {
    && (forall c :: c in b.byConn ==> b.byConn[c].conn == c && Paired(b, b.byConn[c]))
    && (forall n :: n in b.byName ==> b.byName[n].Prefix() == n && Paired(b, b.byName[n]))
    && b.byName.Keys !! b.dist.Keys
  }

  lemma RegisterKeeps(b: Tables, c: Client)
    requires TablesOk(b)
    ensures TablesOk(Register(b, c).0)
    ensures Known(Register(b, c).0) == if Admits(b, c) then Known(b) + {c.Prefix()} else Known(b)
  {
  }

  /** Who is let in, and who is not: every client with an ordinary name that no table knows, on a
  connection that is not in use. */
  lemma RegisterExact(b: Tables, c: Client)
    requires TablesOk(b)
    ensures var (b', out) := Register(b, c);
      if c.name != "public" && c.conn !in b.byConn && c.Prefix() !in Known(b) then
        && Paired(b', c) && Known(b') == Known(b) + {c.Prefix()}
        && b'.byConn - {c.conn} == b.byConn && b'.byName - {c.Prefix()} == b.byName && b'.dist == b.dist
        && out == if b.isRoot then [] else [Up(AddDcl(c.Prefix()))]
      else b' == b && out == if c.name == "public" then [] else [Refused(c.conn)]
  {
    var (b', out) := Register(b, c);
    if Admits(b, c) {
      RegisterKeeps(b, c);
      assert b'.byConn - {c.conn} == b.byConn && b'.byName - {c.Prefix()} == b.byName;
    }
  }

  /** A record goes from both tables, and nothing else; the higher broker is told its name. */
  lemma UnregisterExact(b: Tables, c: Client)
    requires TablesOk(b) && Paired(b, c)
    ensures var (b', out) := Unregister(b, c.conn);
      && c.conn !in b'.byConn && c.Prefix() !in b'.byName
      && b'.byConn[c.conn := c] == b.byConn && b'.byName[c.Prefix() := c] == b.byName && b'.dist == b.dist
      && out == if b.isRoot then [] else [Up(UnregDcli(c.Prefix()))]
  {
    var (b', out) := Unregister(b, c.conn);
    assert b'.byConn[c.conn := c] == b.byConn && b'.byName[c.Prefix() := c] == b.byName;
  }

  /** A known child's announcement is taken and passed on exactly if the name is known nowhere here;
  otherwise that child is told so. */
  lemma AddExact(b: Tables, child: Sock, n: Name)
    requires child in b.children
    ensures var (b', out) := OnAddDcl(b, child, n);
      if n in Known(b) then b' == b && out == [Down(child, RegFail(n))]
      else
        && From(b', child) == From(b, child) + {n} && Known(b') == Known(b) + {n} && b' == b.(dist := b'.dist)
        && out == if b.isRoot then [] else [Up(AddDcl(n))]
  {
  }

  /** A known child's withdrawal takes the name from the distant ones, is passed on if it was there, and
  touches nothing else. */
  lemma UnregExact(b: Tables, child: Sock, n: Name)
    requires child in b.children
    ensures var (b', out) := OnUnregDcli(b, child, n);
      && b' == b.(dist := b.dist - {n})
      && out == if n in b.dist && !b.isRoot then [Up(UnregDcli(n))] else []
  {
    assert n !in b.dist ==> b.dist - {n} == b.dist;
  }

  /** Strangers change nothing and are not answered, and what they forward is lost. */
  lemma StrangersIgnored(b: Tables, child: Sock, n: Name, src: Name, id: Id, hops: nat)
    requires child !in b.children
    ensures OnAddDcl(b, child, n) == (b, []) && OnUnregDcli(b, child, n) == (b, [])
    ensures OnForwardUp(b, child, src, n, id, hops) == [Log(Dropped(id))]
  {
  }

  /** A refusal from above takes the name out of the table that holds it, and reaches the client or the
  child that registered it, and nobody else. */
  lemma RegFailExact(b: Tables, n: Name)
    requires TablesOk(b)
    ensures var (b', out) := OnRegFail(b, n);
      && TablesOk(b') && Known(b') == Known(b) - {n}
      && (n in b.byName ==> b.byName[n].conn !in b'.byConn && b'.dist == b.dist && out == [Refused(b.byName[n].conn)])
      && (forall c :: n in From(b, c) ==> b'.byConn == b.byConn && b'.byName == b.byName && out == [Down(c, RegFail(n))])
      && (n !in Known(b) ==> b' == b && out == [])
      && (forall c :: c in b.byConn && b.byConn[c].Prefix() != n ==> c in b'.byConn && b'.byConn[c] == b.byConn[c])
  {
    DistKeeps(b, 0, n);
  }

  lemma UnregisterKeeps(b: Tables, conn: Conn)
    requires TablesOk(b)
    ensures TablesOk(Unregister(b, conn).0)
    ensures Known(Unregister(b, conn).0) == if conn in b.byConn then Known(b) - {b.byConn[conn].Prefix()} else Known(b)
  {
  }

  lemma DistKeeps(b: Tables, child: Sock, n: Name)
    requires TablesOk(b)
    ensures TablesOk(OnAddDcl(b, child, n).0) && TablesOk(OnUnregDcli(b, child, n).0) && TablesOk(OnRegFail(b, n).0)
  {
  }

  /** o takes the message id from src to dst further, ends it, or is the error about it. */
  ghost predicate Carries(o: Out, src: Name, dst: Name, id: Id) {
    match o
    case Up(m) => m.ForwardUp? && (m.src, m.dst, m.id) == (src, dst, id)
    case Down(_, m) => !m.RegFail? && (m.src, m.dst, m.id) == (src, dst, id)
    case Log(e) => e.id == id && (e.Data? ==> e.to == dst) && (e.Returned? ==> (e.to, e.missing) == (src, dst))
    case Refused(_) => false
  }

  /** Every wire is counted: a forwarded message has crossed n. */
  ghost predicate Crossed(o: Out, n: nat) {
    match o
    case Up(m) => m.ForwardUp? ==> m.hops == n
    case Down(_, m) => m.ForwardDown? ==> m.hops == n
    case _ => true
  }

  ghost predicate HandsOver(o: Out) {
    o.Log? && o.e.Data?
  }

  ghost predicate Fails(o: Out) {
    o.Down? && o.d.NoDst?
  }

  // ---- the handlers ----------------------------------------------------------------------

  /** dd_broker_t, as far as clients and forwarding go.  Each handler hands back what it sends. */
  class Daemon {
    const root: bool
    const brokers: set<Sock>
    var lcl: map<Conn, Client>
    var rev: map<Name, Client>
    var dist: map<Name, Sock>

    constructor (root: bool, brokers: set<Sock>)
      ensures Valid() && View() == Tables(root, map[], map[], map[], brokers)
    {
      this.root, this.brokers := root, brokers;
      lcl, rev, dist := map[], map[], map[];
    }

    ghost function View(): Tables
      reads this
    {
      Tables(root, lcl, rev, dist, brokers)
    }

    ghost predicate Valid()
      reads this
    {
      TablesOk(View())
    }

    // add_cli_up and del_cli_up
    method TellUp(m: UpMsg) returns (out: seq<Out>)
      ensures out == Tell(View(), m)
    {
      out := if root then [] else [Up(m)];
    }

    // insert_local_client and the end of s_cb_challok
    method Challok(c: Client) returns (out: seq<Out>)
      requires Valid()
      modifies this
      ensures Valid() && (View(), out) == Register(old(View()), c)
    {
      RegisterKeeps(View(), c);
      if c.name == "public" {
        return [];
      }
      if c.Prefix() in dist || c.conn in lcl || c.Prefix() in rev {
        return [Refused(c.conn)];
      }
      lcl := lcl[c.conn := c];
      rev := rev[c.Prefix() := c];
      out := TellUp(AddDcl(c.Prefix()));
    }

    // s_cb_unreg_cli: the record found in one table names the keys to unlink in both
    method UnregCli(conn: Conn) returns (out: seq<Out>)
      requires Valid()
      modifies this
      ensures Valid() && (View(), out) == Unregister(old(View()), conn)
    {
      UnregisterKeeps(View(), conn);
      if conn !in lcl {
        return [];
      }
      var ln := lcl[conn];
      out := TellUp(UnregDcli(ln.Prefix()));
      lcl := lcl - {ln.conn};
      rev := rev - {ln.Prefix()};
    }

    // s_cb_adddcl
    method AddDistant(child: Sock, n: Name) returns (out: seq<Out>)
      requires Valid()
      modifies this
      ensures Valid() && (View(), out) == OnAddDcl(old(View()), child, n)
    {
      DistKeeps(View(), child, n);
      if child !in brokers {
        return [];
      }
      if n in rev || n in dist {
        return [Down(child, RegFail(n))];
      }
      dist := dist[n := child];
      out := TellUp(AddDcl(n));
    }

    // s_cb_unreg_dist_cli
    method UnregDistant(child: Sock, n: Name) returns (out: seq<Out>)
      requires Valid()
      modifies this
      ensures Valid() && (View(), out) == OnUnregDcli(old(View()), child, n)
    {
      DistKeeps(View(), child, n);
      if child !in brokers || n !in dist {
        return [];
      }
      dist := dist - {n};
      out := TellUp(UnregDcli(n));
    }

    // the two cases of s_cb_high_error
    method HighError(d: DownMsg) returns (out: seq<Out>)
      requires Valid() && !d.ForwardDown?
      modifies this
      ensures Valid()
      ensures d.RegFail? ==> (View(), out) == OnRegFail(old(View()), d.name)
      ensures d.NoDst? ==> View() == old(View()) && out == OnNoDst(View(), d.dst, d.src, d.id)
    {
      match d
      case NoDst(dst, src, id) =>
        if src in rev {
          out := [Log(Returned(id, src, dst, AfterDot(dst)))];
        } else if src in dist {
          out := [Down(dist[src], d)];
        } else {
          out := [Log(Dropped(id))];
        }
      case RegFail(n) =>
        DistKeeps(View(), 0, n);
        if n in rev {
          var ln := rev[n];
          lcl := lcl - {ln.conn};
          rev := rev - {ln.Prefix()};
          out := [Refused(ln.conn)];
        } else if n in dist {
          out := [Down(dist[n], d)];
          dist := dist - {n};
        } else {
          out := [];
        }
    }

    // strncmp(name, "public.", 7) == 0
    method StartsPublic(n: Name) returns (yes: bool)
      ensures yes == Public(n)
    {
      yes := "public." <= n;
    }

    // strchr(name, '.') + 1
    method PastDot(n: Name) returns (rest: string)
      ensures rest == AfterDot(n)
    {
      var i := 0;
      while i < |n| && n[i] != '.'
        invariant 0 <= i <= |n| && AfterDot(n) == AfterDot(n[i..])
      {
        assert n[i..][1..] == n[i + 1..];
        i := i + 1;
      }
      if i == |n| {
        assert n[i..] == "";
        return "";
      }
      rest := n[i + 1..];
    }

    // the loop of s_cb_send over the tenants, for a destination cut at its first dot
    method TenantOf(tenants: seq<string>, dest: string) returns (found: bool)
      ensures found == MatchesTenant(tenants, BeforeDot(dest))
    {
      var dot := 0;
      while dot < |dest| && dest[dot] != '.'
        invariant 0 <= dot <= |dest| && BeforeDot(dest) == dest[..dot] + BeforeDot(dest[dot..])
      {
        assert dest[dot..][1..] == dest[dot + 1..];
        dot := dot + 1;
      }
      assert BeforeDot(dest) == dest[..dot];
      for k := 0 to |tenants|
        invariant !MatchesTenant(tenants[..k], dest[..dot])
      {
        if tenants[k] <= dest[..dot] {
          return true;
        }
      }
      assert tenants[..|tenants|] == tenants;
      found := false;
    }

    // s_cb_forward_dsock
    method ForwardFromAbove(src: Name, dst: Name, id: Id, hops: nat) returns (out: seq<Out>)
      ensures out == OnForwardDown(View(), src, dst, id, hops)
      ensures |out| == 1 && Carries(out[0], src, dst, id) && Crossed(out[0], hops + 1)
      // handed over exactly where the destination is local, and never answered with an error
      ensures (HandsOver(out[0]) <==> dst in rev) && !Fails(out[0])
      // lost exactly at a root with no entry for it
      ensures out == [Log(Dropped(id))] <==> root && dst !in Known(View())
      // on its way down only to a broker that announced the name
      ensures forall c, m :: Down(c, m) in out ==> dst in From(View(), c)
    {
      var srcPublic := StartsPublic(src);
      var dstPublic := StartsPublic(dst);
      var bare := PastDot(src);
      if dst in rev {
        out := [Log(Data(id, dst, if (srcPublic && !dstPublic) || (!srcPublic && dstPublic) then src else bare))];
      } else if dst in dist {
        out := [Down(dist[dst], ForwardDown(src, dst, id, hops + 1))];
      } else if root {
        out := [Log(Dropped(id))];
      } else {
        out := [Up(ForwardUp(src, dst, id, hops + 1))];
      }
    }

    // s_cb_forward_rsock
    method ForwardFromBelow(child: Sock, src: Name, dst: Name, id: Id, hops: nat) returns (out: seq<Out>)
      ensures out == OnForwardUp(View(), child, src, dst, id, hops)
      ensures |out| == 1 && Carries(out[0], src, dst, id) && Crossed(out[0], hops + 1)
      // handed over exactly where the destination is local
      ensures child in brokers ==> (HandsOver(out[0]) <==> dst in rev)
      // an error exactly at the root, for a name in no table, and only to where the message came from
      ensures child in brokers ==> (Fails(out[0]) <==> root && dst !in Known(View()))
      ensures Fails(out[0]) ==> out[0].child == child
      // nothing else goes back to a child that has not announced the name
      ensures dst !in From(View(), child) ==> forall m :: Down(child, m) in out ==> m.NoDst?
    {
      if child !in brokers {
        return [Log(Dropped(id))];
      }
      var srcPublic := StartsPublic(src);
      var dstPublic := StartsPublic(dst);
      var bare := PastDot(src);
      if dst in rev {
        out := [Log(Data(id, dst, if (srcPublic && !dstPublic) || (!srcPublic && dstPublic) then src else bare))];
      } else if dst in dist {
        out := [Down(dist[dst], ForwardDown(src, dst, id, hops + 1))];
      } else if root {
        out := [Down(child, NoDst(dst, src, id))];
      } else {
        out := [Up(ForwardUp(src, dst, id, hops + 1))];
      }
    }

    // s_cb_send
    method SendFrom(tenants: seq<string>, conn: Conn, dest: string, id: Id) returns (out: seq<Out>)
      ensures out == OnSend(View(), tenants, conn, dest, id)
      // one thing is sent for each registered client, and nothing for the others
      ensures if conn !in lcl then out == [] else |out| == 1 && Carries(out[0], lcl[conn].Prefix(), Destination(tenants, lcl[conn].tenant, dest), id)
      ensures forall o :: o in out ==> Crossed(o, 1)
    {
      if conn !in lcl {
        return [];
      }
      var ln := lcl[conn];
      var srcPublic := ln.tenant == "public";
      var dstPublic := StartsPublic(dest);
      var src, dst := ln.Prefix(), dest;
      if !dstPublic {
        if srcPublic {
          var known := TenantOf(tenants, dest);
          if '.' !in dest || !known {
            dst := ln.tenant + "." + dest;
            dstPublic := true;
          }
        } else {
          dst := ln.tenant + "." + dest;
        }
      }
      var strip := (!srcPublic && !dstPublic) || (srcPublic && dstPublic);
      var bareSrc := PastDot(src);
      var bareDst := PastDot(dst);
      if dst in rev {
        out := [Log(Data(id, dst, if strip then bareSrc else src))];
      } else if dst in dist {
        out := [Down(dist[dst], ForwardDown(src, dst, id, 1))];
      } else if root {
        out := [Log(Returned(id, src, dst, if strip then bareDst else dst))];
      } else {
        out := [Up(ForwardUp(src, dst, id, 1))];
      }
    }
  }
}
