/** What a broker's two subscription indexes hold, told from the requests that clients have made, and
where the code as written, which forgets a client's other topics whenever one is taken back, hands
publications to clients that no longer want them. */
module Interest {
  import opened TrieShape
  import opened TrieNode
  import opened TrieState
  import opened TrieHistory
  import opened SubIndex

  // ---- two sets for each client ------------------------------------------------------------

  /** The topics that the table lists for s. */
  ghost function Listing(keep: bool, reqs: seq<Request>, s: SockId): set<Key> {
    if reqs == [] then {}
    else
      var l := Listing(keep, reqs[..|reqs| - 1], s);
      match reqs[|reqs| - 1]
      case SubReq(c, k) => if c == s then l + {k} else l
      case UnsubReq(c, k) => if c != s then l else if keep then l - {k} else {}
      case Gone(c) => if c == s then {} else l
  }

  /** The topics for which the trie holds s: only what is listed can be taken out. */
  ghost function Standing(keep: bool, reqs: seq<Request>, s: SockId): set<Key> {
    if reqs == [] then {}
    else
      var l, t := Listing(keep, reqs[..|reqs| - 1], s), Standing(keep, reqs[..|reqs| - 1], s);
      match reqs[|reqs| - 1]
      case SubReq(c, k) => if c == s then t + {k} else t
      case UnsubReq(c, k) => if c == s && k in l then t - {k} else t
      case Gone(c) => if c == s then t - l else t
  }

  /** With conversions that carry over, the two indexes hold these sets for every client. */
  lemma {:induction false} IndexesHold(keep: bool, reqs: seq<Request>)
    requires Nulless(reqs)
    ensures var x := AllHandled(true, keep, reqs);
      && Sound(x.clients) && Covers(x.table, x.clients)
      && (forall s, k :: Held(x.clients, k, s) <==> k in Listing(keep, reqs, s))
      && (forall s, k :: Listed(x.table, k, s) <==> k in Standing(keep, reqs, s))
  {
    hide Handled, Held, Listed, Covers, Sound;
    if reqs == [] {
      NoneHeld();
    } else {
      var n := |reqs| - 1;
      IndexesHold(keep, reqs[..n]);
      var x := AllHandled(true, keep, reqs[..n]);
      HandledSound(true, keep, x, reqs[n]);
      HandledCovers(keep, x, reqs[n]);
      HandledPairs(keep, x, reqs[n]);
    }
  }

  lemma NoneHeld()
    ensures var x := Indexes(map[], map[]);
      Sound(x.clients) && Covers(x.table, x.clients) && (forall s, k :: !Held(x.clients, k, s) && !Listed(x.table, k, s))
  {
  }

  /** One request, pair by pair. */
  lemma HandledPairs(keep: bool, x: Indexes, r: Request)
    requires Sound(x.clients) && Covers(x.table, x.clients) && (r.SubReq? ==> 0 !in r.k)
    ensures var y := Handled(true, keep, x, r);
      match r
      case SubReq(c, m) =>
        && (forall s, k :: Held(y.clients, k, s) <==> Held(x.clients, k, s) || (s == c && k == m))
        && (forall s, k :: Listed(y.table, k, s) <==> Listed(x.table, k, s) || (s == c && k == m))
      case UnsubReq(c, m) =>
        && (forall s, k :: Held(y.clients, k, s) <==> Held(x.clients, k, s) && !(s == c && (k == m || !keep)))
        && (forall s, k :: Listed(y.table, k, s) <==> Listed(x.table, k, s) && !(s == c && k == m && Held(x.clients, m, c)))
      case Gone(c) =>
        && (forall s, k :: Held(y.clients, k, s) <==> Held(x.clients, k, s) && s != c)
        && (forall s, k :: Listed(y.table, k, s) <==> Listed(x.table, k, s) && !(s == c && Held(x.clients, k, c)))
  {
    hide Added, Removed, UnsubAll;
    match r
    case SubReq(c, m) =>
      EnteredPairs(x.clients, c, m);
      AddedPairs(x.table, m, c);
    case UnsubReq(c, m) =>
      if c in x.clients {
        WithoutOne(x.clients[c], m);
        UnsubPairs(true, x.table, m, c);
      }
    case Gone(c) =>
      if c in x.clients {
        UnsubAllPairs(true, x.table, x.clients[c], c);
      }
  }

  /** Up to eight requests are safe with the conversions as written. */
  lemma FewSafe(keep: bool, reqs: seq<Request>)
    requires Nulless(reqs) && |reqs| <= SPARSE_MAX
    ensures AllSafe(false, keep, reqs)
  {
    hide AllHandled, UnsubAll, Sound, Covers;
    forall i | 0 <= i < |reqs| ensures Safe(false, AllHandled(false, keep, reqs[..i]), reqs[i]) {
      FewRequests(keep, reqs[..i]);
      IndexesHold(keep, reqs[..i]);
      var x, r := AllHandled(true, keep, reqs[..i]), reqs[i];
      CoveredSafe(x, r);
      if r.Gone? && r.s in x.clients {
        var ks := x.clients[r.s];
        forall j | 0 <= j < |ks| ensures UnsubAll(false, x.table, ks[..j], r.s) == UnsubAll(true, x.table, ks[..j], r.s) {
          FewAll(x.table, ks[..j], r.s);
        }
      }
    }
  }

  // ---- the same, told from the order of the requests -----------------------------------------

  /** r takes the topic k of client s back, by itself or with all the others. */
  predicate Drops(r: Request, s: SockId, k: Key) {
    r == UnsubReq(s, k) || r == Gone(s)
  }

  /** r makes the code as written throw away the list of client s. */
  predicate Empties(r: Request, s: SockId) {
    (r.UnsubReq? && r.s == s) || r == Gone(s)
  }

  /** Request i subscribes s to k, and nothing has taken k back since. */
  ghost predicate WantsSince(reqs: seq<Request>, s: SockId, k: Key, i: nat) {
    i < |reqs| && reqs[i] == SubReq(s, k) && forall j :: i < j < |reqs| ==> !Drops(reqs[j], s, k)
  }

  /** What clients ask for. */
  ghost predicate Wants(reqs: seq<Request>, s: SockId, k: Key) {
    exists i: nat :: WantsSince(reqs, s, k, i)
  }

  ghost predicate ListsSince(reqs: seq<Request>, s: SockId, k: Key, i: nat) {
    i < |reqs| && reqs[i] == SubReq(s, k) && forall j :: i < j < |reqs| ==> !Empties(reqs[j], s)
  }

  ghost predicate Lists(reqs: seq<Request>, s: SockId, k: Key) {
    exists i: nat :: ListsSince(reqs, s, k, i)
  }

  /** Request i is the last one to subscribe s to k; later request j takes another topic of s back; later
  still request l is the first to take k back. */
  ghost predicate LingersFrom(reqs: seq<Request>, s: SockId, k: Key, i: nat, j: nat, l: nat) {
    && i < j < l < |reqs| && reqs[i] == SubReq(s, k)
    && reqs[j].UnsubReq? && reqs[j].s == s && reqs[j].k != k && Drops(reqs[l], s, k)
    && (forall m :: i < m < |reqs| ==> reqs[m] != SubReq(s, k))
    && (forall m :: i < m < l ==> !Drops(reqs[m], s, k))
  }

  ghost predicate Lingers(reqs: seq<Request>, s: SockId, k: Key) {
    exists i: nat, j: nat, l: nat :: LingersFrom(reqs, s, k, i, j, l)
  }

  lemma WantsStep(reqs: seq<Request>, r: Request, s: SockId, k: Key)
    ensures Wants(reqs + [r], s, k) <==> r == SubReq(s, k) || (Wants(reqs, s, k) && !Drops(r, s, k))
  {
    var more := reqs + [r];
    if r == SubReq(s, k) {
      assert WantsSince(more, s, k, |reqs|);
    } else {
      if i: nat :| WantsSince(more, s, k, i) {
        assert WantsSince(reqs, s, k, i) by {
          forall j | i < j < |reqs| ensures !Drops(reqs[j], s, k) {
            assert more[j] == reqs[j];
          }
        }
        assert more[|reqs|] == r;
      }
      if !Drops(r, s, k) {
        if i: nat :| WantsSince(reqs, s, k, i) {
          assert WantsSince(more, s, k, i);
        }
      }
    }
  }

  lemma ListsStep(reqs: seq<Request>, r: Request, s: SockId, k: Key)
    ensures Lists(reqs + [r], s, k) <==> r == SubReq(s, k) || (Lists(reqs, s, k) && !Empties(r, s))
  {
    var more := reqs + [r];
    if r == SubReq(s, k) {
      assert ListsSince(more, s, k, |reqs|);
    } else {
      if i: nat :| ListsSince(more, s, k, i) {
        assert ListsSince(reqs, s, k, i) by {
          forall j | i < j < |reqs| ensures !Empties(reqs[j], s) {
            assert more[j] == reqs[j];
          }
        }
        assert more[|reqs|] == r;
      }
      if !Empties(r, s) {
        if i: nat :| ListsSince(reqs, s, k, i) {
          assert ListsSince(more, s, k, i);
        }
      }
    }
  }

  /** The last request to subscribe s to k. */
  ghost predicate LastSub(reqs: seq<Request>, s: SockId, k: Key, i: nat) {
    i < |reqs| && reqs[i] == SubReq(s, k) && forall m :: i < m < |reqs| ==> reqs[m] != SubReq(s, k)
  }

  lemma {:induction false} FindLast(reqs: seq<Request>, s: SockId, k: Key, h: nat) returns (i: nat)
    requires h < |reqs| && reqs[h] == SubReq(s, k)
    ensures h <= i && LastSub(reqs, s, k, i)
  {
    var n := |reqs| - 1;
    if reqs[n] == SubReq(s, k) {
      i := n;
    } else {
      i := FindLast(reqs[..n], s, k, h);
    }
  }

  /** Wanted but no longer listed: since the last subscribing another topic has been taken back. */
  ghost predicate ForgottenFrom(reqs: seq<Request>, s: SockId, k: Key, i: nat, j: nat) {
    && LastSub(reqs, s, k, i) && i < j < |reqs|
    && reqs[j].UnsubReq? && reqs[j].s == s && reqs[j].k != k
    && (forall m :: i < m < |reqs| ==> !Drops(reqs[m], s, k))
  }

  lemma Forgotten(reqs: seq<Request>, s: SockId, k: Key) returns (i: nat, j: nat)
    requires Wants(reqs, s, k) && !Lists(reqs, s, k)
    ensures ForgottenFrom(reqs, s, k, i, j)
  {
    var h: nat :| WantsSince(reqs, s, k, h);
    i := FindLast(reqs, s, k, h);
    assert !ListsSince(reqs, s, k, i);
    j :| i < j < |reqs| && Empties(reqs[j], s);
    assert !Drops(reqs[j], s, k);
  }

  lemma ForgottenSo(reqs: seq<Request>, s: SockId, k: Key, i: nat, j: nat)
    requires ForgottenFrom(reqs, s, k, i, j)
    ensures Wants(reqs, s, k) && !Lists(reqs, s, k)
  {
    assert WantsSince(reqs, s, k, i);
    if h: nat :| ListsSince(reqs, s, k, h) {
      assert h <= i;
      assert Empties(reqs[j], s);
    }
  }

  lemma LingersStep(reqs: seq<Request>, r: Request, s: SockId, k: Key)
    ensures Lingers(reqs + [r], s, k) <==>
      r != SubReq(s, k) && (Lingers(reqs, s, k) || (Drops(r, s, k) && Wants(reqs, s, k) && !Lists(reqs, s, k)))
  {
    hide Drops, Wants, Lists;
    var more, n := reqs + [r], |reqs|;
    assert more[n] == r && forall m :: 0 <= m < n ==> more[m] == reqs[m];
    if i: nat, j: nat, l: nat :| LingersFrom(more, s, k, i, j, l) {
      LingersBack(reqs, r, s, k, i, j, l);
    }
    if r != SubReq(s, k) {
      if i: nat, j: nat, l: nat :| LingersFrom(reqs, s, k, i, j, l) {
        assert LingersFrom(more, s, k, i, j, l);
      }
      if Drops(r, s, k) && Wants(reqs, s, k) && !Lists(reqs, s, k) {
        var i, j := Forgotten(reqs, s, k);
        assert LingersFrom(more, s, k, i, j, n);
      }
    }
  }

  lemma LingersBack(reqs: seq<Request>, r: Request, s: SockId, k: Key, i: nat, j: nat, l: nat)
    requires LingersFrom(reqs + [r], s, k, i, j, l)
    ensures r != SubReq(s, k) && (Lingers(reqs, s, k) || (Drops(r, s, k) && Wants(reqs, s, k) && !Lists(reqs, s, k)))
  {
    hide Drops, Wants, Lists;
    var more, n := reqs + [r], |reqs|;
    assert more[n] == r && forall m :: 0 <= m < n ==> more[m] == reqs[m];
    if l < n {
      forall m | i < m < n ensures reqs[m] != SubReq(s, k) {
        assert more[m] == reqs[m];
      }
      forall m | i < m < l ensures !Drops(reqs[m], s, k) {
        assert more[m] == reqs[m];
      }
      assert LingersFrom(reqs, s, k, i, j, l);
    } else {
      forall m | i < m < n ensures reqs[m] != SubReq(s, k) && !Drops(reqs[m], s, k) {
        assert more[m] == reqs[m];
      }
      ForgottenSo(reqs, s, k, i, j);
    }
  }

  lemma LingersUnwanted(reqs: seq<Request>, s: SockId, k: Key)
    requires Lingers(reqs, s, k)
    ensures !Wants(reqs, s, k)
  {
    var i: nat, j: nat, l: nat :| LingersFrom(reqs, s, k, i, j, l);
    forall h: nat ensures !WantsSince(reqs, s, k, h) {
      if h <= i {
        assert Drops(reqs[l], s, k);
      }
    }
  }

  /** With the fix, both indexes hold for each client what it has asked for and not taken back. */
  lemma {:induction false} KeptPlain(reqs: seq<Request>, s: SockId, k: Key)
    ensures k in Listing(true, reqs, s) <==> Wants(reqs, s, k)
    ensures k in Standing(true, reqs, s) <==> Wants(reqs, s, k)
  {
    hide Wants;
    if reqs == [] {
      NoneWanted(s, k);
    } else {
      var n := |reqs| - 1;
      assert reqs == reqs[..n] + [reqs[n]];
      KeptPlain(reqs[..n], s, k);
      WantsStep(reqs[..n], reqs[n], s, k);
    }
  }

  lemma NoneWanted(s: SockId, k: Key)
    ensures !Wants([], s, k) && !Lists([], s, k) && !Lingers([], s, k)
  {
  }

  /** As written, the table lists what a client has asked for since it last took anything back, and the
  trie holds what it wants and, besides, what lingers: a topic that it took back after another
  one. */
  lemma {:induction false} AsWrittenStands(reqs: seq<Request>, s: SockId, k: Key)
    ensures k in Listing(false, reqs, s) <==> Lists(reqs, s, k)
    ensures k in Standing(false, reqs, s) <==> Wants(reqs, s, k) || Lingers(reqs, s, k)
  {
    hide Wants, Lists, Lingers;
    if reqs == [] {
      NoneWanted(s, k);
    } else {
      var n := |reqs| - 1;
      assert reqs == reqs[..n] + [reqs[n]];
      AsWrittenStands(reqs[..n], s, k);
      WantsStep(reqs[..n], reqs[n], s, k);
      ListsStep(reqs[..n], reqs[n], s, k);
      LingersStep(reqs[..n], reqs[n], s, k);
      if Lists(reqs[..n], s, k) {
        ListsWants(reqs[..n], s, k);
      }
    }
  }

  lemma ListsWants(reqs: seq<Request>, s: SockId, k: Key)
    requires Lists(reqs, s, k)
    ensures Wants(reqs, s, k) && !Lingers(reqs, s, k)
  {
    var i: nat :| ListsSince(reqs, s, k, i);
    assert WantsSince(reqs, s, k, i);
    if Lingers(reqs, s, k) {
      LingersUnwanted(reqs, s, k);
    }
  }

  /** As written, the trie holds for s what it holds with the fix. */
  ghost predicate Alike(reqs: seq<Request>, s: SockId) {
    Standing(false, reqs, s) == Standing(true, reqs, s)
  }

  /** As written, the trie holds just what is wanted if and only if no client has taken a topic back, or
  left, after it took back another one that it had at the same time. */
  lemma AsWrittenPlain(reqs: seq<Request>)
    ensures (forall s :: Alike(reqs, s)) <==> forall s, k :: !Lingers(reqs, s, k)
  {
    hide Wants, Lingers;
    forall s, k
      ensures k in Standing(false, reqs, s) <==> Wants(reqs, s, k) || Lingers(reqs, s, k)
      ensures k in Standing(true, reqs, s) <==> Wants(reqs, s, k)
      ensures Lingers(reqs, s, k) ==> !Wants(reqs, s, k)
    {
      AsWrittenStands(reqs, s, k);
      KeptPlain(reqs, s, k);
      if Lingers(reqs, s, k) {
        LingersUnwanted(reqs, s, k);
      }
    }
    if s, k :| Lingers(reqs, s, k) {
      assert !Alike(reqs, s);
    }
  }

  /** Whenever the table has forgotten a topic that is wanted, taking that one back has no effect. */
  lemma ForgottenSlips(reqs: seq<Request>, s: SockId, k: Key)
    requires Wants(reqs, s, k) && !Lists(reqs, s, k)
    ensures var more := reqs + [UnsubReq(s, k)]; k in Standing(false, more, s) && k !in Standing(true, more, s)
  {
    hide Wants, Lists, Lingers, Standing;
    var more := reqs + [UnsubReq(s, k)];
    LingersStep(reqs, UnsubReq(s, k), s, k);
    AsWrittenStands(more, s, k);
    KeptPlain(more, s, k);
    LingersUnwanted(more, s, k);
  }

  // ---- when both indexes agree ---------------------------------------------------------------

  /** No client takes a topic back while listed for another one. */
  ghost predicate Tidy(reqs: seq<Request>) {
    forall j :: 0 <= j < |reqs| && reqs[j].UnsubReq? ==> Listing(false, reqs[..j], reqs[j].s) <= {reqs[j].k}
  }

  ghost predicate InAgreement(reqs: seq<Request>) {
    forall s :: Listing(false, reqs, s) == Standing(false, reqs, s)
  }

  lemma AgreeStep(reqs: seq<Request>)
    requires reqs != [] && InAgreement(reqs[..|reqs| - 1])
    ensures var r := reqs[|reqs| - 1];
      InAgreement(reqs) <==> (r.UnsubReq? ==> Listing(false, reqs[..|reqs| - 1], r.s) <= {r.k})
  {
    var n := |reqs| - 1;
    var r := reqs[n];
    assert forall s :: Listing(false, reqs[..n], s) == Standing(false, reqs[..n], s);
    forall s | !(r.UnsubReq? && r.s == s) ensures Listing(false, reqs, s) == Standing(false, reqs, s) {
    }
    if r.UnsubReq? {
      var l := Listing(false, reqs[..n], r.s);
      assert Listing(false, reqs, r.s) == {};
      assert Standing(false, reqs, r.s) == l - {r.k};
      assert l - {r.k} == {} <==> l <= {r.k};
    }
  }

  /** As written, the two indexes agree all the time if and only if no client ever takes a topic back while
  listed for another one; and then nothing lingers. */
  lemma {:induction false} TidyAgrees(reqs: seq<Request>)
    ensures Tidy(reqs) <==> forall n :: 0 <= n <= |reqs| ==> InAgreement(reqs[..n])
  {
    hide InAgreement, Listing;
    if reqs == [] {
      NothingListed();
      assert reqs[..0] == [];
    } else {
      var n := |reqs| - 1;
      var rest := reqs[..n];
      TidyAgrees(rest);
      assert forall j :: 0 <= j <= n ==> rest[..j] == reqs[..j];
      assert reqs[..n + 1] == reqs;
      if InAgreement(rest) {
        AgreeStep(reqs);
      } else {
        assert rest[..n] == rest;
      }
    }
  }

  lemma NothingListed()
    ensures InAgreement([])
  {
  }

  lemma TidyPlain(reqs: seq<Request>, s: SockId, k: Key)
    requires Tidy(reqs)
    ensures !Lingers(reqs, s, k)
  {
    hide Lists, Wants, Lingers, Tidy;
    TidyAgrees(reqs);
    assert reqs[..|reqs|] == reqs;
    assert InAgreement(reqs[..|reqs|]);
    AsWrittenStands(reqs, s, k);
    if Lists(reqs, s, k) {
      ListsWants(reqs, s, k);
    }
  }
}
