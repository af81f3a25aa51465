/** Scoped subscriptions and publications through the trie: from the requests of clients to the
clients that a publication is handed to (src/lib/broker.c with src/lib/trie.c). */
module ScopedDelivery {
  import opened TrieShape
  import opened TrieNode
  import opened TrieState
  import opened TrieHistory
  import opened ScopeKey
  import opened Interest
  import X = SubIndex
  import Broker

  /** Characters as they can stand in a string of the program. */
  predicate Plain(s: string) {
    forall i :: 0 <= i < |s| ==> 0 < s[i] as int < 256
  }

  function Code(s: string): (k: TrieShape.Key)
    requires Plain(s)
    ensures |k| == |s| && forall i :: 0 <= i < |s| ==> k[i] as int == s[i] as int
  {
    seq(|s|, i requires 0 <= i < |s| => s[i] as int as Byte)
  }

  lemma CodePrefix(a: string, b: string)
    requires Plain(a) && Plain(b)
    ensures Code(a) <= Code(b) <==> a <= b
    ensures 0 !in Code(a)
  {
    var k, l := Code(a), Code(b);
    if k <= l {
      forall i | 0 <= i < |a| ensures a[i] == b[i] {
        assert k[i] == l[i];
      }
      assert a == b[..|a|];
    }
    if a <= b {
      forall i | 0 <= i < |a| ensures k[i] == l[i] {
        assert a[i] == b[i];
      }
      assert k == l[..|k|];
    }
  }

  /** A client subscribes, takes a subscription back, or is removed. */
  datatype Act =
    | Subscribes(request: Request, sock: SockId)
    | TakesBack(request: Request, sock: SockId)
    | Leaves(sock: SockId)

  /** s_cb_sub and s_cb_unsub turn the topic "public" down. */
  predicate Refused(a: Act) { !a.Leaves? && a.request.topic == "public" }

  predicate Served(a: Act, own: seq<string>) {
    a.Leaves? || (a.request.Proper() && a.request.Fits(own) && Plain(a.request.Filed(own)))
  }

  predicate AllServed(acts: seq<Act>, own: seq<string>) {
    forall i :: 0 <= i < |acts| ==> Served(acts[i], own)
  }

  function CodeOf(a: Act, own: seq<string>): TrieShape.Key
    requires Served(a, own) && !a.Leaves?
  {
    Code(a.request.Filed(own))
  }

  function ReqOf(a: Act, own: seq<string>): X.Request
    requires Served(a, own)
  {
    match a
    case Subscribes(_, s) => X.SubReq(s, CodeOf(a, own))
    case TakesBack(_, s) => X.UnsubReq(s, CodeOf(a, own))
    case Leaves(s) => X.Gone(s)
  }

  /** What the acts ask of the two indexes. */
  function Reqs(acts: seq<Act>, own: seq<string>): seq<X.Request>
    requires AllServed(acts, own)
  {
    if acts == [] then []
    else
      var n := |acts| - 1;
      Reqs(acts[..n], own) + (if Refused(acts[n]) then [] else [ReqOf(acts[n], own)])
  }

  /** What the trie holds was put there by some subscription. */
  lemma {:induction false} HeldFrom(carry: bool, keep: bool, reqs: seq<X.Request>, k: TrieShape.Key, s: SockId)
    requires Listed(X.AllHandled(carry, keep, reqs).table, k, s)
    ensures X.SubReq(s, k) in reqs
  {
    hide LostBySub, LostByUnsub, X.Entered, X.Without, X.UnsubAll, Added;
    var n := |reqs| - 1;
    var x := X.AllHandled(carry, keep, reqs[..n]);
    if reqs[n] != X.SubReq(s, k) {
      match reqs[n] {
        case SubReq(c, m) => X.AddedPairs(if carry then x.table else x.table - LostBySub(x.table, m), m, c);
        case UnsubReq(c, m) => X.UnsubPairs(carry, x.table, m, c);
        case Gone(c) =>
          if c in x.clients {
            X.UnsubAllPairs(carry, x.table, x.clients[c], c);
          }
      }
      assert Listed(x.table, k, s);
      HeldFrom(carry, keep, reqs[..n], k, s);
    }
  }

  lemma {:induction false} ReqsFrom(acts: seq<Act>, own: seq<string>, r: X.Request) returns (i: nat)
    requires AllServed(acts, own) && r in Reqs(acts, own)
    ensures i < |acts| && !Refused(acts[i]) && r == ReqOf(acts[i], own)
  {
    var n := |acts| - 1;
    if r in Reqs(acts[..n], own) {
      i := ReqsFrom(acts[..n], own, r);
    } else {
      i := n;
    }
  }

  /** Act i subscribes, and at the end the trie holds its client for its topic. */
  ghost predicate Stands(carry: bool, keep: bool, acts: seq<Act>, own: seq<string>, i: nat)
    requires AllServed(acts, own)
  {
    && i < |acts| && acts[i].Subscribes? && acts[i].request.topic != "public"
    && Listed(X.AllHandled(carry, keep, Reqs(acts, own)).table, CodeOf(acts[i], own), acts[i].sock)
  }

  /** The client of act i, which subscribes, still wants its topic at the end. */
  ghost predicate Wanted(acts: seq<Act>, own: seq<string>, i: nat)
    requires AllServed(acts, own)
  {
    && i < |acts| && acts[i].Subscribes? && acts[i].request.topic != "public"
    && Wants(Reqs(acts, own), acts[i].sock, CodeOf(acts[i], own))
  }

  /** It has taken its topic back, or left, after it took another one back. */
  ghost predicate Lingering(acts: seq<Act>, own: seq<string>, i: nat)
    requires AllServed(acts, own)
  {
    && i < |acts| && acts[i].Subscribes? && acts[i].request.topic != "public"
    && Lingers(Reqs(acts, own), acts[i].sock, CodeOf(acts[i], own))
  }

  /** With conversions that carry over, what stands is told from the requests. */
  lemma StandsWanted(keep: bool, acts: seq<Act>, own: seq<string>, i: nat)
    requires AllServed(acts, own)
    ensures Stands(true, keep, acts, own, i) <==> Wanted(acts, own, i) || (!keep && Lingering(acts, own, i))
    ensures !(Wanted(acts, own, i) && Lingering(acts, own, i))
  {
    hide Reqs, Wants, Lingers, X.AllHandled, Code, Plain, Request.Filed, Listing, Standing;
    NoZerosIn(acts, own);
    var reqs := Reqs(acts, own);
    IndexesHold(keep, reqs);
    if i < |acts| && acts[i].Subscribes? {
      var s, k := acts[i].sock, CodeOf(acts[i], own);
      AsWrittenStands(reqs, s, k);
      KeptPlain(reqs, s, k);
      if Lingers(reqs, s, k) {
        LingersUnwanted(reqs, s, k);
      }
    }
  }

  predicate Looked(p: Publication) {
    p.Proper() && p.topic != "" && Plain(p.Published())
  }

  lemma CodesMeet(a: Act, own: seq<string>, p: Publication)
    requires Served(a, own) && !a.Leaves? && ScopeKey.Components(own) && Looked(p)
    ensures CodeOf(a, own) <= Code(p.Published()) <==> Meets(a.request, own, p)
  {
    hide Meets, Code, Plain, Request.Filed, Publication.Published;
    FiledMeets(a.request, own, p);
    CodePrefix(a.request.Filed(own), p.Published());
  }

  lemma {:induction false} NoZerosIn(acts: seq<Act>, own: seq<string>)
    requires AllServed(acts, own)
    ensures X.Nulless(Reqs(acts, own))
  {
    forall j | 0 <= j < |Reqs(acts, own)| && Reqs(acts, own)[j].SubReq? ensures 0 !in Reqs(acts, own)[j].k {
      var i := ReqsFrom(acts, own, Reqs(acts, own)[j]);
      var text := acts[i].request.Filed(own);
      CodePrefix(text, text);
    }
  }

  /** The clients to whom a broker with scope own hands p after the acts: those with a subscription that
  stands and meets it. */
  ghost function Hands(carry: bool, keep: bool, acts: seq<Act>, own: seq<string>, p: Publication): set<SockId>
    requires AllServed(acts, own)
  {
    set i | 0 <= i < |acts| && Stands(carry, keep, acts, own, i) && Meets(acts[i].request, own, p) :: acts[i].sock
  }

  /** The acts of its clients, one after the other, at a broker. */
  method ServeActs(carry: bool, keep: bool, acts: seq<Act>, own: seq<string>) returns (idx: X.Index)
    requires AllServed(acts, own) && (carry || X.AllSafe(false, keep, Reqs(acts, own)))
    ensures idx.Valid() && fresh(idx) && fresh(idx.trie) && fresh(idx.trie.st.nodes.Values)
    ensures idx.View() == X.AllHandled(carry, keep, Reqs(acts, own))
  {
    hide Code, Request.Filed, Plain, X.AllHandled, X.AllSafe;
    var reqs: seq<X.Request> := [];
    for i := 0 to |acts|
      invariant reqs == Reqs(acts[..i], own)
    {
      assert acts[..i + 1][..i] == acts[..i];
      match acts[i] {
        case Subscribes(r, s) =>
          if r.topic != "public" {
            var key := SubscriptionKey(r, own);
            reqs := reqs + [X.SubReq(s, Code(key))];
          }
        case TakesBack(r, s) =>
          if r.topic != "public" {
            var key := SubscriptionKey(r, own);
            reqs := reqs + [X.UnsubReq(s, Code(key))];
          }
        case Leaves(s) =>
          reqs := reqs + [X.Gone(s)];
      }
    }
    assert acts[..|acts|] == acts;
    NoZerosIn(acts, own);
    idx := X.Serve(reqs, carry, keep);
  }

  /** At any broker, after any subscribing, taking back and leaving of its clients, a publication from
  any broker is handed, once each, to exactly the clients with a subscription that stands in the
  trie and meets it.  With conversions that carry over, those are the subscriptions that are wanted
  and, as UNSUB is written, the lingering ones. */
  method Deliver(carry: bool, keep: bool, acts: seq<Act>, own: seq<string>, p: Publication) returns (socks: seq<SockId>)
    requires AllServed(acts, own) && ScopeKey.Components(own) && Looked(p)
    requires carry || X.AllSafe(false, keep, Reqs(acts, own))
    ensures Distinct(socks) && forall s :: s in socks <==> s in Hands(carry, keep, acts, own, p)
    ensures carry ==> forall i: nat :: Stands(carry, keep, acts, own, i) <==> Wanted(acts, own, i) || (!keep && Lingering(acts, own, i))
  {
    hide X.AllHandled, Meets, Code, Request.Filed, Publication.Published, Plain, Reqs, X.AllSafe, Hands, Stands, Wanted, Lingering;
    var idx := ServeActs(carry, keep, acts, own);
    var brokerScope := SetScope(p.theirs);
    var key := PublicationKey(p, brokerScope);
    var q := Code(key);
    var rc;
    ghost var t := idx.trie.Contents();
    socks, rc := Query(idx.trie, q, t);
    HandsExact(carry, keep, acts, own, p, t);
    if carry {
      forall i: nat
        ensures Stands(carry, keep, acts, own, i) <==> Wanted(acts, own, i) || (!keep && Lingering(acts, own, i))
      {
        StandsWanted(keep, acts, own, i);
      }
    }
  }

  /** Looking the key up finds the clients that Hands says. */
  lemma HandsExact(carry: bool, keep: bool, acts: seq<Act>, own: seq<string>, p: Publication, t: Table)
    requires AllServed(acts, own) && ScopeKey.Components(own) && Looked(p)
    requires t == X.AllHandled(carry, keep, Reqs(acts, own)).table
    ensures forall s :: s in Hands(carry, keep, acts, own, p) <==> exists k :: k in t && k <= Code(p.Published()) && s in t[k]
  {
    hide X.AllHandled, Meets, Code, Request.Filed, Publication.Published, Plain, Reqs;
    forall s | exists k :: k in t && k <= Code(p.Published()) && s in t[k]
      ensures s in Hands(carry, keep, acts, own, p)
    {
      var k :| k in t && k <= Code(p.Published()) && s in t[k];
      HeldFrom(carry, keep, Reqs(acts, own), k, s);
      var i := ReqsFrom(acts, own, X.SubReq(s, k));
      CodesMeet(acts[i], own, p);
      assert Stands(carry, keep, acts, own, i);
    }
    forall s | s in Hands(carry, keep, acts, own, p) ensures exists k :: k in t && k <= Code(p.Published()) && s in t[k] {
      var i :| 0 <= i < |acts| && Stands(carry, keep, acts, own, i) && Meets(acts[i].request, own, p) && acts[i].sock == s;
      CodesMeet(acts[i], own, p);
      assert CodeOf(acts[i], own) in t;
    }
  }

  /** As UNSUB is written, p goes to the clients it should go to if and only if each client with a
  lingering subscription that meets p also wants one that does. */
  lemma AsWrittenHands(acts: seq<Act>, own: seq<string>, p: Publication)
    requires AllServed(acts, own)
    ensures Hands(true, false, acts, own, p) == Hands(true, true, acts, own, p) <==>
      forall i :: 0 <= i < |acts| && Lingering(acts, own, i) && Meets(acts[i].request, own, p) ==> acts[i].sock in Hands(true, true, acts, own, p)
  {
    hide Meets, Stands, Wanted, Lingering;
    forall i: nat
      ensures Stands(true, false, acts, own, i) <==> Wanted(acts, own, i) || Lingering(acts, own, i)
      ensures Stands(true, true, acts, own, i) <==> Wanted(acts, own, i)
    {
      StandsWanted(false, acts, own, i);
      StandsWanted(true, acts, own, i);
    }
  }

  /** Tenant separation of publications, at every broker and after every history: only clients of one
  tenant are reached, the public one if the topic begins with "public.", else the publisher's. */
  method DeliverApart(carry: bool, keep: bool, acts: seq<Act>, own: seq<string>, p: Publication) returns (socks: seq<SockId>)
    requires AllServed(acts, own) && ScopeKey.Components(own) && Looked(p)
    requires carry || X.AllSafe(false, keep, Reqs(acts, own))
    ensures forall s :: s in socks <==> s in Hands(carry, keep, acts, own, p)
    ensures forall s :: s in socks ==>
      exists i :: 0 <= i < |acts| && Stands(carry, keep, acts, own, i) && acts[i].sock == s && acts[i].request.tenant == p.Audience()
  {
    hide Stands, Looked, Pieces, X.AllSafe, Reqs;
    socks := Deliver(carry, keep, acts, own, p);
  }

  /** If no client takes a topic back while listed for another one, UNSUB as written does no harm. */
  lemma TidyHands(acts: seq<Act>, own: seq<string>, p: Publication)
    requires AllServed(acts, own) && Tidy(Reqs(acts, own))
    ensures Hands(true, false, acts, own, p) == Hands(true, true, acts, own, p)
  {
    hide Hands, Meets, Tidy, Lingers, Code, Reqs;
    forall i | 0 <= i < |acts| ensures !Lingering(acts, own, i) {
      if acts[i].Subscribes? {
        TidyPlain(Reqs(acts, own), acts[i].sock, CodeOf(acts[i], own));
      }
    }
    AsWrittenHands(acts, own, p);
  }

  // ---- two topics taken back -----------------------------------------------------------------

  /** Client s asks for "a" and "b" and takes both back. */
  function TwoBack(s: SockId): seq<Act> {
    var a, b := Request("t", "a", "noscope"), Request("t", "b", "noscope");
    [Subscribes(a, s), Subscribes(b, s), TakesBack(a, s), TakesBack(b, s)]
  }

  lemma TwoBackServed(s: SockId)
    ensures AllServed(TwoBack(s), [])
  {
    assert "t" + "." + "a" == "t.a" && "t" + "." + "b" == "t.b";
  }

  lemma TwoBackReqs(s: SockId)
    requires AllServed(TwoBack(s), [])
    ensures var k, l := Code("t.a"), Code("t.b");
      Reqs(TwoBack(s), []) == [X.SubReq(s, k), X.SubReq(s, l), X.UnsubReq(s, k), X.UnsubReq(s, l)] && k != l
  {
    hide Code, Reqs;
    var acts := TwoBack(s);
    assert "t" + "." + "a" == "t.a" && "t" + "." + "b" == "t.b";
    assert "t.a"[2] != "t.b"[2] && Code("t.a")[2] != Code("t.b")[2];
    assert acts[..0] == [] && acts[..1] == [acts[0]] && acts[..4] == acts;
    ReqsNext(acts, [], 0);
    ReqsNext(acts, [], 1);
    ReqsNext(acts, [], 2);
    ReqsNext(acts, [], 3);
  }

  lemma ReqsNext(acts: seq<Act>, own: seq<string>, n: nat)
    requires AllServed(acts, own) && n < |acts|
    ensures Reqs(acts[..n + 1], own) == Reqs(acts[..n], own) + (if Refused(acts[n]) then [] else [ReqOf(acts[n], own)])
    ensures Reqs(acts[..0], own) == []
  {
    assert acts[..n + 1][..n] == acts[..n];
  }

  lemma TwoBackLingers(s: SockId)
    requires AllServed(TwoBack(s), [])
    ensures forall i: nat :: !Wanted(TwoBack(s), [], i)
    ensures Lingering(TwoBack(s), [], 1)
  {
    hide Code;
    TwoBackReqs(s);
    var acts, k, l := TwoBack(s), Code("t.a"), Code("t.b");
    var reqs := Reqs(acts, []);
    assert "t" + "." + "b" == "t.b";
    assert LingersFrom(reqs, s, l, 1, 2, 3);
    LingersUnwanted(reqs, s, l);
    forall h: nat ensures !WantsSince(reqs, s, k, h) {
      assert Drops(reqs[2], s, k);
    }
    forall i: nat ensures !Wanted(acts, [], i) {
      assert "t" + "." + "a" == "t.a";
    }
  }

  lemma TwoBackStands(s: SockId, keep: bool, i: nat)
    requires AllServed(TwoBack(s), [])
    ensures X.AllSafe(false, keep, Reqs(TwoBack(s), []))
    ensures Stands(false, keep, TwoBack(s), [], i) <==> !keep && Lingering(TwoBack(s), [], i)
  {
    hide Reqs, X.AllHandled, X.AllSafe, Lingering, Wanted, Code;
    var acts := TwoBack(s);
    TwoBackReqs(s);
    NoZerosIn(acts, []);
    FewSafe(keep, Reqs(acts, []));
    X.FewRequests(keep, Reqs(acts, []));
    StandsWanted(keep, acts, [], i);
    TwoBackLingers(s);
  }

  lemma LooksUp()
    ensures Looked(Publication("t", "b", []))
    ensures forall s :: Meets(TwoBack(s)[1].request, [], Publication("t", "b", []))
  {
    var p := Publication("t", "b", []);
    assert p.Subject() == "b";
    assert p.Published() == "t.b/";
  }

  lemma TwoBackHands(s: SockId)
    requires AllServed(TwoBack(s), [])
    ensures var p := Publication("t", "b", []);
      Hands(false, false, TwoBack(s), [], p) == {s} && Hands(false, true, TwoBack(s), [], p) == {}
  {
    hide Stands, Meets, Lingering, Wanted;
    var acts, p := TwoBack(s), Publication("t", "b", []);
    TwoBackLingers(s);
    LooksUp();
    forall i: nat
      ensures Stands(false, false, acts, [], i) <==> Lingering(acts, [], i)
      ensures !Stands(false, true, acts, [], i)
    {
      TwoBackStands(s, false, i);
      TwoBackStands(s, true, i);
    }
    forall i | 0 <= i < |acts| && Lingering(acts, [], i) ensures acts[i].sock == s {
    }
    assert acts[1].sock in Hands(false, false, acts, [], p);
  }

  /** As written: after that a publication on "b" is still handed to s. */
  method SecondTakeBackLost(s: SockId) returns (asWritten: seq<SockId>, fixed: seq<SockId>)
    ensures Distinct(asWritten) && (forall c :: c in asWritten <==> c == s) && (forall c :: c !in fixed)
  {
    hide X.AllSafe, Meets, Stands, Reqs, Hands, Looked;
    var acts, p := TwoBack(s), Publication("t", "b", []);
    TwoBackServed(s);
    TwoBackStands(s, false, 0);
    TwoBackStands(s, true, 0);
    TwoBackHands(s);
    LooksUp();
    asWritten := Deliver(false, false, acts, [], p);
    fixed := Deliver(false, true, acts, [], p);
  }
}
