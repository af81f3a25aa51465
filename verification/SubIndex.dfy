/** The broker's two subscription indexes: the hash table of topics by client and the trie of
clients by topic (src/lib/htable.c:384-502, src/lib/broker.c:941-968, 1151-1163). */
module SubIndex {
  import opened TrieShape
  import opened TrieNode
  import opened TrieState
  import opened TrieHeap
  import opened TrieHistory

  type Clients = map<SockId, seq<Key>>

  ghost predicate Held(c: Clients, k: Key, s: SockId) {
    s in c && k in c[s]
  }

  /** Every subscription in the table is in the trie. */
  ghost predicate Covers(t: Table, c: Clients) {
    forall k, s :: Held(c, k, s) ==> Listed(t, k, s)
  }

  ghost predicate Agree(t: Table, c: Clients) {
    forall k, s :: Held(c, k, s) <==> Listed(t, k, s)
  }

  lemma AddedPairs(t: Table, k: Key, s: SockId)
    ensures forall k', s' :: Listed(Added(t, k, s), k', s') <==> Listed(t, k', s') || (k' == k && s' == s)
  {
  }

  lemma RemovedPairs(t: Table, k: Key, s: SockId)
    requires k in t
    ensures forall k', s' :: Listed(Removed(t, k, s), k', s') <==> Listed(t, k', s') && !(k' == k && s' == s)
  {
  }

  ghost predicate Sound(c: Clients) {
    forall s :: s in c ==> Distinct(c[s]) && forall k: Key :: k in c[s] ==> 0 !in k
  }

  /** One unsubscription after another. */
  ghost function UnsubAll(carry: bool, t: Table, ks: seq<Key>, s: SockId): Table {
    if ks == [] then t
    else
      var n := |ks| - 1;
      ApplyAs(carry, UnsubAll(carry, t, ks[..n], s), Unsub(ks[n], s))
  }

  /** The entries that go on the way, as written. */
  ghost function LostByAll(t: Table, ks: seq<Key>, s: SockId): set<Key> {
    if ks == [] then {}
    else
      var n := |ks| - 1;
      var r := UnsubAll(false, t, ks[..n], s);
      LostByAll(t, ks[..n], s) + (if Listed(r, ks[n], s) then LostByUnsub(r, ks[n], s) else {})
  }

  lemma UnsubPairs(carry: bool, t: Table, k: Key, s: SockId)
    ensures forall k', s' :: Listed(ApplyAs(carry, t, Unsub(k, s)), k', s') <==>
      Listed(t, k', s') && !(k' == k && s' == s) && (carry || !Listed(t, k, s) || k' !in LostByUnsub(t, k, s))
  {
    hide LostByUnsub, Removed;
    if Listed(t, k, s) {
      RemovedPairs(t, k, s);
    }
  }

  lemma {:induction false} UnsubAllPairs(carry: bool, t: Table, ks: seq<Key>, s: SockId)
    ensures forall k', s' :: Listed(UnsubAll(carry, t, ks, s), k', s') <==>
      Listed(t, k', s') && !(k' in ks && s' == s) && (carry || k' !in LostByAll(t, ks, s))
  {
    hide ApplyAs, LostByUnsub;
    if ks != [] {
      var n := |ks| - 1;
      UnsubAllPairs(carry, t, ks[..n], s);
      UnsubPairs(carry, UnsubAll(carry, t, ks[..n], s), ks[n], s);
      assert ks == ks[..n] + [ks[n]];
    }
  }

  function Without(ks: seq<Key>, k: Key): seq<Key> {
    if ks == [] then []
    else Without(ks[..|ks| - 1], k) + if ks[|ks| - 1] == k then [] else [ks[|ks| - 1]]
  }

  lemma {:induction false} WithoutOne(ks: seq<Key>, k: Key)
    ensures forall x :: x in Without(ks, k) <==> x in ks && x != k
    ensures Distinct(ks) ==> Distinct(Without(ks, k))
  {
    if ks != [] {
      var n := |ks| - 1;
      WithoutOne(ks[..n], k);
      assert ks == ks[..n] + [ks[n]];
      assert Distinct(ks) ==> Distinct(ks[..n]) && ks[n] !in ks[..n];
    }
  }

  /** What one UNSUB leaves of the two indexes.  They still agree if and only if the client's
  list survives or held nothing but the topic. */
  lemma RemoveEffect(c0: Clients, t0: Table, c: Clients, t: Table, s: SockId, topic: Key, keep: bool)
    requires Sound(c0) && Covers(t0, c0) && s in c0
    requires c == if keep then c0[s := Without(c0[s], topic)] else c0 - {s}
    requires topic in c0[s] ==> topic in t0 && t == Removed(t0, topic, s)
    requires topic !in c0[s] ==> t == t0
    ensures Sound(c) && Covers(t, c)
    ensures Agree(t0, c0) ==> (Agree(t, c) <==> keep || forall k :: k in c0[s] ==> k == topic)
  {
    hide Removed;
    WithoutOne(c0[s], topic);
    if topic in c0[s] { RemovedPairs(t0, topic, s); }
    if !keep {
      forall k | k in c0[s] && k != topic
        ensures Listed(t, k, s) && !Held(c, k, s)
      {
        assert Held(c0, k, s);
      }
    }
  }

  /** One unsubscription of a client that is listed for two topics: as written, the other one stays in
  the trie while the table forgets it. */
  lemma TwoTopicsDisagree(s: SockId)
    ensures var c: Clients := map[s := [[97], [98]]]; var t: Table := map[[97] := {s}, [98] := {s}];
      && Agree(t, c) && !Agree(Removed(t, [97], s), c - {s}) && Agree(Removed(t, [97], s), c[s := Without(c[s], [97])])
  {
    var c: Clients := map[s := [[97], [98]]];
    var t: Table := map[[97] := {s}, [98] := {s}];
    var a: Key, b: Key := [97], [98];
    assert a != b && c[s][0] == a && c[s][1] == b;
    assert Listed(t, a, s) && Listed(t, b, s);
    RemovedPairs(t, a, s);
    WithoutOne(c[s], a);
    assert Held(c, b, s) && Listed(Removed(t, a, s), b, s) && !Held(c - {s}, b, s);
  }

  // ---- the two indexes as values -----------------------------------------------------------

  datatype Request = SubReq(s: SockId, k: Key) | UnsubReq(s: SockId, k: Key) | Gone(s: SockId)

  datatype Indexes = Indexes(clients: Clients, table: Table)

  /** insert_subscription on values. */
  ghost function Entered(c: Clients, s: SockId, k: Key): Clients {
    c[s := if Held(c, k, s) then c[s] else (if s in c then c[s] else []) + [k]]
  }

  ghost function Handled(carry: bool, keep: bool, x: Indexes, r: Request): Indexes {
    match r
    case SubReq(s, k) => Indexes(Entered(x.clients, s, k), ApplyAs(carry, x.table, Sub(k, s)))
    case UnsubReq(s, k) =>
      if s !in x.clients then x
      else Indexes(if keep then x.clients[s := Without(x.clients[s], k)] else x.clients - {s},
                   if k in x.clients[s] then ApplyAs(carry, x.table, Unsub(k, s)) else x.table)
    case Gone(s) =>
      if s !in x.clients then x
      else Indexes(x.clients - {s}, UnsubAll(carry, x.table, x.clients[s], s))
  }

  ghost function AllHandled(carry: bool, keep: bool, reqs: seq<Request>): Indexes {
    if reqs == [] then Indexes(map[], map[])
    else Handled(carry, keep, AllHandled(carry, keep, reqs[..|reqs| - 1]), reqs[|reqs| - 1])
  }

  /** Each nn_trie_unsubscribe is for an entry that is in the trie. */
  ghost predicate Safe(carry: bool, x: Indexes, r: Request) {
    match r
    case SubReq(_, _) => true
    case UnsubReq(s, k) => Held(x.clients, k, s) ==> Listed(x.table, k, s)
    case Gone(s) => s in x.clients ==> SafeAll(carry, x.table, x.clients[s], s)
  }

  ghost predicate SafeAll(carry: bool, t: Table, ks: seq<Key>, s: SockId) {
    forall i :: 0 <= i < |ks| ==> Listed(UnsubAll(carry, t, ks[..i], s), ks[i], s)
  }

  ghost predicate AllSafe(carry: bool, keep: bool, reqs: seq<Request>) {
    forall i :: 0 <= i < |reqs| ==> Safe(carry, AllHandled(carry, keep, reqs[..i]), reqs[i])
  }

  ghost predicate Nulless(reqs: seq<Request>) {
    forall i :: 0 <= i < |reqs| && reqs[i].SubReq? ==> 0 !in reqs[i].k
  }

  lemma EnteredPairs(c: Clients, s: SockId, topic: Key)
    requires Sound(c) && 0 !in topic
    ensures Sound(Entered(c, s, topic))
    ensures forall k', s' :: Held(Entered(c, s, topic), k', s') <==> Held(c, k', s') || (k' == topic && s' == s)
  {
  }

  /** What is left in the table of clients. */
  lemma HandledSound(carry: bool, keep: bool, x: Indexes, r: Request)
    requires Sound(x.clients) && (r.SubReq? ==> 0 !in r.k)
    ensures Sound(Handled(carry, keep, x, r).clients)
  {
    hide ApplyAs, UnsubAll;
    match r
    case SubReq(s, k) => EnteredPairs(x.clients, s, k);
    case UnsubReq(s, k) => if s in x.clients { WithoutOne(x.clients[s], k); }
    case Gone(_) =>
  }

  /** With conversions that carry over, a table that is covered makes every request safe. */
  lemma CoveredSafe(x: Indexes, r: Request)
    requires Sound(x.clients) && Covers(x.table, x.clients)
    ensures Safe(true, x, r)
  {
    hide UnsubAll;
    if r.Gone? && r.s in x.clients {
      var ks := x.clients[r.s];
      forall i | 0 <= i < |ks| ensures Listed(UnsubAll(true, x.table, ks[..i], r.s), ks[i], r.s) {
        UnsubAllPairs(true, x.table, ks[..i], r.s);
        assert Held(x.clients, ks[i], r.s);
      }
    }
  }

  /** As written, a covered table makes a departure safe if and only if no topic of the client is lost
  to the unsubscriptions before its own. */
  lemma SafeGone(x: Indexes, s: SockId)
    requires Sound(x.clients) && Covers(x.table, x.clients) && s in x.clients
    ensures Safe(false, x, Gone(s)) <==> forall i :: 0 <= i < |x.clients[s]| ==> x.clients[s][i] !in LostByAll(x.table, x.clients[s][..i], s)
  {
    hide UnsubAll, LostByAll;
    var ks := x.clients[s];
    forall i | 0 <= i < |ks|
      ensures Listed(UnsubAll(false, x.table, ks[..i], s), ks[i], s) <==> ks[i] !in LostByAll(x.table, ks[..i], s)
    {
      UnsubAllPairs(false, x.table, ks[..i], s);
      assert Held(x.clients, ks[i], s);
    }
  }

  lemma HandledCovers(keep: bool, x: Indexes, r: Request)
    requires Sound(x.clients) && Covers(x.table, x.clients) && (r.SubReq? ==> 0 !in r.k)
    ensures var y := Handled(true, keep, x, r); Covers(y.table, y.clients)
    ensures var y := Handled(true, keep, x, r); keep && Agree(x.table, x.clients) ==> Agree(y.table, y.clients)
  {
    hide UnsubAll, Added, Removed;
    match r
    case SubReq(s, k) =>
      EnteredPairs(x.clients, s, k);
      AddedPairs(x.table, k, s);
    case UnsubReq(s, k) =>
      if s in x.clients {
        WithoutOne(x.clients[s], k);
        UnsubPairs(true, x.table, k, s);
      }
    case Gone(s) =>
      if s in x.clients {
        UnsubAllPairs(true, x.table, x.clients[s], s);
      }
  }

  // ---- the conversions as written ----------------------------------------------------------

  /** The entries that one request loses to conversions as written. */
  ghost function Lost(x: Indexes, r: Request): set<Key> {
    match r
    case SubReq(s, k) => LostBySub(x.table, k)
    case UnsubReq(s, k) => if Held(x.clients, k, s) && Listed(x.table, k, s) then LostByUnsub(x.table, k, s) else {}
    case Gone(s) => if s in x.clients then LostByAll(x.table, x.clients[s], s) else {}
  }

  /** As written, every request, be it SUB, UNSUB or the removal of a client, leaves the table covered if
  and only if no client is then still listed for an entry that it loses. */
  lemma AsWrittenCovers(keep: bool, x: Indexes, r: Request)
    requires Sound(x.clients) && Covers(x.table, x.clients) && (r.SubReq? ==> 0 !in r.k)
    ensures var y := Handled(false, keep, x, r);
      Covers(y.table, y.clients) <==> forall k, s :: k in Lost(x, r) ==> !Held(y.clients, k, s)
  {
    hide LostBySub, LostByUnsub, LostByAll, Added, UnsubAll;
    match r
    case SubReq(s, k) => SubCovers(x, s, k);
    case UnsubReq(s, k) =>
      if s in x.clients {
        UnsubCovers(keep, x, s, k);
      }
    case Gone(s) =>
      if s in x.clients {
        GoneCovers(keep, x, s);
      }
  }

  lemma SubCovers(x: Indexes, s: SockId, topic: Key)
    requires Sound(x.clients) && Covers(x.table, x.clients) && 0 !in topic
    ensures Covers(ApplyAs(false, x.table, Sub(topic, s)), Entered(x.clients, s, topic)) <==>
      forall k, s' :: k in LostBySub(x.table, topic) ==> !Held(Entered(x.clients, s, topic), k, s')
  {
    hide LostBySub, Added, Entered;
    EnteredPairs(x.clients, s, topic);
    var lost := LostBySub(x.table, topic);
    AddedPairs(x.table - lost, topic, s);
    NotItself(x.table, topic);
    if k, s' :| k in lost && Held(Entered(x.clients, s, topic), k, s') {
      assert !Listed(x.table - lost, k, s');
    }
  }

  lemma UnsubCovers(keep: bool, x: Indexes, s: SockId, topic: Key)
    requires Sound(x.clients) && Covers(x.table, x.clients) && s in x.clients
    ensures var y := Handled(false, keep, x, UnsubReq(s, topic));
      Covers(y.table, y.clients) <==> forall k, s' :: k in Lost(x, UnsubReq(s, topic)) ==> !Held(y.clients, k, s')
  {
    hide LostByUnsub, ApplyAs;
    var y := Handled(false, keep, x, UnsubReq(s, topic));
    WithoutOne(x.clients[s], topic);
    UnsubPairs(false, x.table, topic, s);
    assert Held(x.clients, topic, s) <==> topic in x.clients[s];
    assert forall k, s' :: Held(y.clients, k, s') ==> Held(x.clients, k, s') && !(k == topic && s' == s);
  }

  lemma GoneCovers(keep: bool, x: Indexes, s: SockId)
    requires Sound(x.clients) && Covers(x.table, x.clients) && s in x.clients
    ensures var y := Handled(false, keep, x, Gone(s));
      Covers(y.table, y.clients) <==> forall k, s' :: k in Lost(x, Gone(s)) ==> !Held(y.clients, k, s')
  {
    hide LostByAll, UnsubAll;
    UnsubAllPairs(false, x.table, x.clients[s], s);
  }

  lemma NotItself(t: Table, topic: Key)
    ensures topic !in LostBySub(t, topic)
  {
  }

  /** With no more than eight subscribed strings there is nothing to lose. */
  lemma FewStrings(t: Table, k: Key, s: SockId)
    requires |t| <= SPARSE_MAX
    ensures LostBySub(t, k) == {} && LostByUnsub(t, k, s) == {}
  {
    forall m | m in t ensures |Nexts(t, m)| < SPARSE_MAX {
      FewNexts(t, m);
    }
  }

  lemma FewNexts(t: Table, m: Key)
    requires m in t
    ensures |Nexts(t, m)| < |t|
  {
    var longer := set n | n in t && m < n;
    assert m !in longer;
    assert longer <= t.Keys - {m};
    CountSub(longer, t.Keys - {m});
    CharactersOf(longer, m);
    assert Nexts(t, m) == set n | n in longer :: n[|m|];
  }

  lemma {:induction false} CountSub(a: set<Key>, b: set<Key>)
    requires a <= b
    ensures |a| <= |b|
  {
    if x :| x in a {
      CountSub(a - {x}, b - {x});
    }
  }

  lemma {:induction false} CharactersOf(ns: set<Key>, m: Key)
    requires forall n :: n in ns ==> m < n
    ensures |set n | n in ns :: n[|m|]| <= |ns|
  {
    if x :| x in ns {
      var rest := ns - {x};
      CharactersOf(rest, m);
      assert (set n | n in ns :: n[|m|]) == (set n | n in rest :: n[|m|]) + {x[|m|]};
    }
  }

  lemma {:induction false} FewAll(t: Table, ks: seq<Key>, s: SockId)
    requires |t| <= SPARSE_MAX
    ensures UnsubAll(false, t, ks, s) == UnsubAll(true, t, ks, s) && |UnsubAll(true, t, ks, s)| <= |t|
  {
    hide LostBySub, LostByUnsub;
    if ks != [] {
      var n := |ks| - 1;
      FewAll(t, ks[..n], s);
      var r := UnsubAll(true, t, ks[..n], s);
      FewStrings(r, ks[n], s);
      AsWrittenExact(r, Unsub(ks[n], s));
      SmallerBy(r, ks[n], s);
    }
  }

  lemma SmallerBy(t: Table, k: Key, s: SockId)
    ensures |Apply(t, Unsub(k, s))| <= |t|
  {
    var u := Apply(t, Unsub(k, s));
    assert u.Keys <= t.Keys;
    CountSub(u.Keys, t.Keys);
  }

  lemma LargerBy(t: Table, k: Key, s: SockId)
    ensures |Apply(t, Sub(k, s))| <= |t| + 1
  {
    assert Apply(t, Sub(k, s)).Keys == t.Keys + {k};
  }

  /** Up to eight requests, the conversions as written do no harm. */
  lemma {:induction false} FewRequests(keep: bool, reqs: seq<Request>)
    requires |reqs| <= SPARSE_MAX
    ensures AllHandled(false, keep, reqs) == AllHandled(true, keep, reqs) && |AllHandled(true, keep, reqs).table| <= |reqs|
  {
    hide LostBySub, LostByUnsub, Entered, Without, UnsubAll;
    if reqs != [] {
      var n := |reqs| - 1;
      FewRequests(keep, reqs[..n]);
      var x, r := AllHandled(true, keep, reqs[..n]), reqs[n];
      match r
      case SubReq(s, k) =>
        FewStrings(x.table, k, s);
        AsWrittenExact(x.table, Sub(k, s));
        LargerBy(x.table, k, s);
      case UnsubReq(s, k) =>
        FewStrings(x.table, k, s);
        AsWrittenExact(x.table, Unsub(k, s));
        SmallerBy(x.table, k, s);
      case Gone(s) =>
        if s in x.clients {
          FewAll(x.table, x.clients[s], s);
        }
    }
  }

  // ---- the indexes of a broker -------------------------------------------------------------

  class Index {
    const trie: Trie
    /** Whether remove_subscription keeps the client's other topics.  false is the code as
    written, which throws the whole list away (src/lib/htable.c:456-462). */
    const keep: bool
    var clients: Clients

    constructor (carry: bool, keep: bool)
      ensures Valid() && fresh(trie) && fresh(trie.st.nodes.Values) && trie.carry == carry && this.keep == keep
      ensures View() == Indexes(map[], map[]) && Agree(trie.Contents(), clients)
    {
      this.keep, clients := keep, map[];
      trie := new Trie(carry);
    }

    ghost function View(): Indexes
      reads this, trie
    {
      Indexes(clients, trie.Contents())
    }

    ghost predicate Valid()
      reads this, trie, trie.st.nodes.Values
    {
      trie.Valid() && Sound(clients) && (trie.carry ==> Covers(trie.Contents(), clients))
    }

    lemma Covered()
      requires Valid() && trie.carry
      ensures Covers(trie.Contents(), clients)
    {
    }

    // insert_subscription
    method Insert(sockid: SockId, topic: Key) returns (rc: nat)
      modifies this
      ensures clients == Entered(old(clients), sockid, topic)
      ensures rc == if sockid !in old(clients) then 2 else if topic in old(clients)[sockid] then 0 else 1
    {
      if sockid in clients {
        if topic !in clients[sockid] {
          clients := clients[sockid := clients[sockid] + [topic]];
          return 1;
        } else {
          return 0;
        }
      }
      clients := clients[sockid := [topic]];
      assert [] + [topic] == [topic];
      return 2;
    }

    // the two index updates of s_cb_sub
    method Subscribe(sockid: SockId, topic: Key)
      requires Valid() && 0 !in topic
      modifies this, trie, trie.st.nodes.Values
      ensures Valid() && fresh(trie.st.nodes.Values - old(trie.st.nodes.Values))
      ensures View() == Handled(trie.carry, keep, old(View()), SubReq(sockid, topic))
      ensures forall k, s :: Held(clients, k, s) <==> Held(old(clients), k, s) || (k == topic && s == sockid)
      ensures trie.carry && old(Agree(trie.Contents(), clients)) ==> Agree(trie.Contents(), clients)
    {
      hide Good, Subs, Added, LostBySub, Entered;
      ghost var x := View();
      EnteredPairs(clients, sockid, topic);
      AddedPairs(trie.Contents(), topic, sockid);
      var r := Insert(sockid, topic);
      Perform(trie, Sub(topic, sockid));
    }

    /** One nn_trie_unsubscribe. */
    method Drop(topic: Key, sockid: SockId)
      requires trie.Valid() && 0 !in topic && Listed(trie.Contents(), topic, sockid)
      modifies trie, trie.st.nodes.Values
      ensures trie.Valid() && trie.st.nodes.Values <= old(trie.st.nodes.Values)
      ensures trie.Contents() == ApplyAs(trie.carry, old(trie.Contents()), Unsub(topic, sockid))
    {
      hide Trie.Valid, Subs, Removed, LostByUnsub;
      if trie.carry {
        Undropped(trie, topic, sockid);
      } else {
        DropsAreLosses(trie, topic, sockid);
      }
      ghost var t := Removed(trie.Contents(), topic, sockid);
      assert t - {} == t;
      var rc := trie.Unsubscribe(topic, sockid);
    }

    // remove_subscription
    method Remove(sockid: SockId, topic: Key) returns (ntop: nat)
      requires Valid() && (trie.carry || Safe(false, View(), UnsubReq(sockid, topic)))
      modifies this, trie, trie.st.nodes.Values
      ensures Valid() && trie.st.nodes.Values <= old(trie.st.nodes.Values)
      ensures View() == Handled(trie.carry, keep, old(View()), UnsubReq(sockid, topic))
      ensures ntop == if sockid in old(clients) then |old(clients)[sockid]| else 0
      ensures trie.carry && old(Agree(trie.Contents(), clients)) && sockid in old(clients) ==>
        (Agree(trie.Contents(), clients) <==> keep || forall k :: k in old(clients)[sockid] ==> k == topic)
    {
      hide Good, Subs, ApplyAs, Without, Covers, Agree, Listed;
      if sockid !in clients {
        return 0;
      }
      var topics := clients[sockid];
      ghost var x := View();
      ntop := |topics|;
      Met(trie.carry, x, sockid, topic);
      Withdraw(topics, sockid, topic);
      if keep {
        clients := clients[sockid := Without(topics, topic)];
      } else {
        // as written, the whole list goes although only one topic was unsubscribed
        clients := clients - {sockid};
      }
      Removes(trie.carry, keep, x, sockid, topic);
    }

    static lemma Met(carry: bool, x: Indexes, s: SockId, topic: Key)
      requires s in x.clients && (carry ==> Covers(x.table, x.clients)) && (carry || Safe(false, x, UnsubReq(s, topic)))
      ensures topic in x.clients[s] ==> Listed(x.table, topic, s)
    {
      assert topic in x.clients[s] ==> Held(x.clients, topic, s);
    }

    static lemma Removes(carry: bool, keep: bool, x: Indexes, s: SockId, topic: Key)
      requires Sound(x.clients) && s in x.clients && (carry ==> Covers(x.table, x.clients))
      ensures var y := Handled(carry, keep, x, UnsubReq(s, topic));
        && Sound(y.clients)
        && (carry ==> Covers(y.table, y.clients))
        && (carry && Agree(x.table, x.clients) ==>
              (Agree(y.table, y.clients) <==> keep || forall k :: k in x.clients[s] ==> k == topic))
    {
      hide Removed, LostByUnsub;
      HandledSound(carry, keep, x, UnsubReq(s, topic));
      if carry {
        assert topic in x.clients[s] ==> Held(x.clients, topic, s);
        var y := Handled(carry, keep, x, UnsubReq(s, topic));
        RemoveEffect(x.clients, x.table, y.clients, y.table, s, topic, keep);
      }
    }

    /** The loop over the client's topics: the one that is named leaves the trie. */
    method Withdraw(topics: seq<Key>, sockid: SockId, topic: Key)
      requires trie.Valid() && Distinct(topics) && forall k: Key :: k in topics ==> 0 !in k
      requires topic in topics ==> Listed(trie.Contents(), topic, sockid)
      modifies trie, trie.st.nodes.Values
      ensures trie.Valid() && trie.st.nodes.Values <= old(trie.st.nodes.Values)
      ensures trie.Contents() == if topic in topics then ApplyAs(trie.carry, old(trie.Contents()), Unsub(topic, sockid)) else old(trie.Contents())
    {
      hide Good, Subs, ApplyAs;
      ghost var t0 := trie.Contents();
      var i := 0;
      while i < |topics|
        invariant 0 <= i <= |topics| && trie.Valid()
        invariant trie.st.nodes.Values <= old(trie.st.nodes.Values)
        invariant trie.Contents() == if topic in topics[..i] then ApplyAs(trie.carry, t0, Unsub(topic, sockid)) else t0
      {
        if topics[i] == topic {
          assert topic !in topics[..i];
          Drop(topic, sockid);
        }
        i := i + 1;
      }
      assert topics[..|topics|] == topics;
    }

    // remove_subscriptions
    method RemoveAll(sockid: SockId) returns (ntop: nat)
      requires Valid() && (trie.carry || Safe(false, View(), Gone(sockid)))
      modifies this, trie, trie.st.nodes.Values
      ensures Valid() && trie.st.nodes.Values <= old(trie.st.nodes.Values)
      ensures View() == Handled(trie.carry, keep, old(View()), Gone(sockid))
      ensures ntop == if sockid in old(clients) then |old(clients)[sockid]| else 0
      ensures forall k, s :: Listed(trie.Contents(), k, s) <==>
        && Listed(old(trie.Contents()), k, s) && !(Held(old(clients), k, sockid) && s == sockid)
        && (trie.carry || k !in old(Lost(View(), Gone(sockid))))
      ensures trie.carry && old(Agree(trie.Contents(), clients)) ==> Agree(trie.Contents(), clients)
    {
      hide Good, Subs, UnsubAll, Lost, Covers, Agree, Listed, SafeAll, Handled;
      ghost var x := View();
      Clears(trie.carry, keep, x, sockid);
      if sockid !in clients {
        return 0;
      }
      var topics := clients[sockid];
      ntop := |topics|;
      ClearTopics(topics, sockid);
      clients := clients - {sockid};
    }

    static lemma Clears(carry: bool, keep: bool, x: Indexes, s: SockId)
      requires Sound(x.clients) && (carry ==> Covers(x.table, x.clients)) && (carry || Safe(false, x, Gone(s)))
      ensures var y := Handled(carry, keep, x, Gone(s));
        && y == (if s in x.clients then Indexes(x.clients - {s}, UnsubAll(carry, x.table, x.clients[s], s)) else x)
        && Sound(y.clients) && (carry ==> Covers(y.table, y.clients))
        && (forall k, s' :: Listed(y.table, k, s') <==>
              Listed(x.table, k, s') && !(Held(x.clients, k, s) && s' == s) && (carry || k !in Lost(x, Gone(s))))
        && (carry && Agree(x.table, x.clients) ==> Agree(y.table, y.clients))
      ensures s in x.clients ==> SafeAll(carry, x.table, x.clients[s], s) && forall k: Key :: k in x.clients[s] ==> 0 !in k
    {
      hide UnsubAll, LostByAll, SafeAll;
      if s in x.clients {
        UnsubAllPairs(carry, x.table, x.clients[s], s);
        if carry {
          CoveredSafe(x, Gone(s));
        }
      }
    }

    method ClearTopics(topics: seq<Key>, sockid: SockId)
      requires trie.Valid() && SafeAll(trie.carry, trie.Contents(), topics, sockid) && forall k: Key :: k in topics ==> 0 !in k
      modifies trie, trie.st.nodes.Values
      ensures trie.Valid() && trie.st.nodes.Values <= old(trie.st.nodes.Values)
      ensures trie.Contents() == UnsubAll(trie.carry, old(trie.Contents()), topics, sockid)
    {
      hide Good, Subs, ApplyAs, UnsubAll, SafeAll, Listed;
      ghost var t0 := trie.Contents();
      NoneYet(trie.carry, t0, topics, sockid);
      var i := 0;
      while i < |topics|
        invariant 0 <= i <= |topics| && trie.Valid()
        invariant trie.st.nodes.Values <= old(trie.st.nodes.Values)
        invariant trie.Contents() == UnsubAll(trie.carry, t0, topics[..i], sockid)
      {
        NextOne(trie.carry, t0, topics, sockid, i);
        Drop(topics[i], sockid);
        i := i + 1;
      }
      assert topics[..|topics|] == topics;
    }

    static lemma NextOne(carry: bool, t: Table, ks: seq<Key>, s: SockId, i: nat)
      requires i < |ks| && SafeAll(carry, t, ks, s)
      ensures Listed(UnsubAll(carry, t, ks[..i], s), ks[i], s)
      ensures UnsubAll(carry, t, ks[..i + 1], s) == ApplyAs(carry, UnsubAll(carry, t, ks[..i], s), Unsub(ks[i], s))
    {
      assert ks[..i + 1][..i] == ks[..i];
    }

    static lemma NoneYet(carry: bool, t: Table, ks: seq<Key>, s: SockId)
      ensures UnsubAll(carry, t, ks[..0], s) == t
    {
    }

    method Handle(r: Request)
      requires Valid() && (r.SubReq? ==> 0 !in r.k) && (trie.carry || Safe(false, View(), r))
      modifies this, trie, trie.st.nodes.Values
      ensures Valid() && fresh(trie.st.nodes.Values - old(trie.st.nodes.Values))
      ensures View() == Handled(trie.carry, keep, old(View()), r)
      ensures trie.carry && keep && old(Agree(trie.Contents(), clients)) ==> Agree(trie.Contents(), clients)
    {
      hide Good, Subs, Handled;
      ghost var x := View();
      if trie.carry {
        HandledCovers(keep, x, r);
      }
      match r {
        case SubReq(s, k) => Subscribe(s, k);
        case UnsubReq(s, k) => var n := Remove(s, k);
        case Gone(s) => var n := RemoveAll(s);
      }
    }
  }

  /** Every run of SUB, UNSUB and client removals leaves the indexes that AllHandled says.  With
  conversions that carry over each entry of the table is then also in the trie, so every
  nn_trie_unsubscribe meets its precondition; when remove_subscription drops only its own topic the
  two indexes stay equal. */
  method Serve(reqs: seq<Request>, carry: bool, keep: bool) returns (idx: Index)
    requires Nulless(reqs) && (carry || AllSafe(false, keep, reqs))
    ensures idx.Valid() && idx.trie.carry == carry && idx.keep == keep && fresh(idx) && fresh(idx.trie) && fresh(idx.trie.st.nodes.Values)
    ensures idx.View() == AllHandled(carry, keep, reqs)
    ensures carry ==> Covers(idx.trie.Contents(), idx.clients)
    ensures carry && keep ==> Agree(idx.trie.Contents(), idx.clients)
  {
    hide Handled, Safe, Index.Valid, Trie.Valid, Covers, Agree, Subs;
    idx := new Index(carry, keep);
    for i := 0 to |reqs|
      invariant idx.Valid() && idx.trie.carry == carry && idx.keep == keep
      invariant fresh(idx) && fresh(idx.trie) && fresh(idx.trie.st.nodes.Values)
      invariant idx.View() == AllHandled(carry, keep, reqs[..i])
      invariant carry && keep ==> Agree(idx.trie.Contents(), idx.clients)
    {
      assert reqs[..i + 1][..i] == reqs[..i];
      idx.Handle(reqs[i]);
    }
    assert reqs[..|reqs|] == reqs;
    if carry {
      idx.Covered();
    }
  }
}
