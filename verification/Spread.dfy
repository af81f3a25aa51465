/** Publications from the client that sends them to the clients that are handed them, over the whole
tree: the spreading of copies (Flood) together with what each broker hands to its own clients
(ScopedDelivery), while clients subscribe, take back and leave everywhere. */
module Spread {
  import opened Broker
  import opened RouteTree
  import opened TrieNode
  import opened ScopeKey
  import opened ScopedDelivery
  import F = Flood
  import X = SubIndex

  /** The tree, the scope of each broker, what each publication is, and how indexes and tries work. */
  datatype Plan = Plan(scene: F.Scene, own: map<Sock, seq<string>>, pubs: map<F.Pub, Publication>, carry: bool, keep: bool)

  /** The copies under way, what each broker's clients have asked for, and who has been handed what. */
  datatype World = World(sky: F.Sky, acts: map<Sock, seq<Act>>, handed: multiset<(Sock, F.Pub, SockId)>)

  datatype Step = Floods(a: F.Step) | Serves(at: Sock, act: Act)

  ghost predicate Set(z: Plan) {
    && F.Distinct(z.scene)
    && (forall b :: b in z.scene.t.depth ==> b in z.own && Components(z.own[b]))
    && (forall p :: p in z.pubs ==> Looked(z.pubs[p]) && !z.pubs[p].Bare())
  }

  /** The indexes of a broker can be used without a stray unsubscription. */
  ghost predicate Usable(z: Plan, b: Sock, acts: seq<Act>)
    requires b in z.own
  {
    AllServed(acts, z.own[b]) && (z.carry || X.AllSafe(false, z.keep, Reqs(acts, z.own[b])))
  }

  ghost predicate Ok(z: Plan, w: World)
    requires Set(z)
  {
    && F.SkyOk(z.scene, w.sky)
    && (forall c :: c in w.sky.copies ==> c.pub in z.pubs)
    && (forall b :: b in z.scene.t.depth ==> b in w.acts && Usable(z, b, w.acts[b]))
  }

  ghost predicate Enabled(z: Plan, w: World, a: Step)
    requires Set(z) && Ok(z, w)
  {
    match a
    case Floods(f) =>
      && F.Enabled(z.scene, w.sky, f)
      && (f.Publishes? ==> f.pub in z.pubs && f.at in z.own && z.pubs[f.pub].theirs == z.own[f.at])
    case Serves(b, act) => b in z.scene.t.depth && Usable(z, b, w.acts[b] + [act])
  }

  /** The clients of broker x that would be handed p now. */
  ghost function Now(z: Plan, w: World, x: Sock, p: F.Pub): set<SockId>
    requires Set(z) && Ok(z, w) && x in z.scene.t.depth && p in z.pubs
  {
    Hands(z.carry, z.keep, w.acts[x], z.own[x], z.pubs[p])
  }

  /** Where a step of the flood hands a publication on, if anywhere. */
  ghost function Fresh(before: F.Sky, after: F.Sky): seq<(Sock, F.Pub)>
    requires before.done <= after.done
  {
    after.done[|before.done|..]
  }

  /** A step of the flood hands a publication of the plan on once at most. */
  ghost predicate Grows(z: Plan, before: F.Sky, after: F.Sky) {
    && before.done <= after.done && |Fresh(before, after)| <= 1
    && (Fresh(before, after) != [] ==> Fresh(before, after)[0].0 in z.scene.t.depth && Fresh(before, after)[0].1 in z.pubs)
    && (forall c :: c in after.copies ==> c.pub in z.pubs)
  }

  lemma DoneGrows(z: Plan, w: World, f: F.Step)
    requires Set(z) && Ok(z, w) && Enabled(z, w, Floods(f))
    ensures Grows(z, w.sky, F.Next(z.scene, w.sky, f))
  {
    hide WellFormed, Usable, Looked, Components, Grows, F.Publish, F.Arrived;
    match f
    case Publishes(b, p) => PublishGrows(z, w.sky, b, p);
    case Takes(i) => ArriveGrows(z, w.sky, i);
  }

  lemma PublishGrows(z: Plan, sky: F.Sky, b: Sock, p: F.Pub)
    requires F.Distinct(z.scene) && b in z.scene.t.depth && b in z.scene.ids && p in z.pubs
    requires forall c :: c in sky.copies ==> c.pub in z.pubs
    ensures Grows(z, sky, F.Publish(z.scene, sky, b, p))
  {
    hide WellFormed, F.Distinct;
    F.SouthOk(z.scene, z.scene.t.brokers, b, p, z.scene.nobody);
  }

  lemma ArriveGrows(z: Plan, sky: F.Sky, i: nat)
    requires F.Distinct(z.scene) && F.Arrives(z.scene, sky, i)
    requires forall c :: c in sky.copies ==> c.pub in z.pubs
    ensures Grows(z, sky, F.Arrived(z.scene, sky, i))
  {
    hide WellFormed, F.Distinct;
    var s, c := z.scene, sky.copies[i];
    F.InScene(s);
    assert c in sky.copies;
    var b, path := F.End(s, c), if c.North? then c.path else s.nobody;
    F.SouthOk(s, s.t.brokers, b, c.pub, path);
    var out := F.Sent(s, b, c.North?, c.pub, path);
    assert forall d :: d in out ==> d.pub == c.pub;
    assert forall d :: d in F.Without(sky, i) ==> d in sky.copies;
    if c.South? {
      assert out == F.ToSouth(s.t, s.t.brokers, b, c.pub, path);
    }
  }

  /** The clients of the broker that hands it on are handed the publication. */
  ghost function Handing(z: Plan, w: World, done: seq<(Sock, F.Pub)>): multiset<(Sock, F.Pub, SockId)>
    requires Set(z) && Ok(z, w) && (done != [] ==> done[0].0 in z.scene.t.depth && done[0].1 in z.pubs)
  {
    if done == [] then multiset{}
    else
      var (x, p) := done[0];
      multiset(set s | s in Now(z, w, x, p) :: (x, p, s))
  }

  ghost function Next(z: Plan, w: World, a: Step): (w': World)
    requires Set(z) && Ok(z, w) && Enabled(z, w, a)
    ensures Ok(z, w')
  {
    match a
    case Floods(f) =>
      DoneGrows(z, w, f);
      var sky := F.Next(z.scene, w.sky, f);
      World(sky, w.acts, w.handed + Handing(z, w, Fresh(w.sky, sky)))
    case Serves(b, act) => World(w.sky, w.acts[b := w.acts[b] + [act]], w.handed)
  }

  ghost predicate Run(z: Plan, w: World, steps: seq<Step>)
    requires Set(z) && Ok(z, w)
    decreases |steps|
  {
    steps == [] || (Enabled(z, w, steps[0]) && Run(z, Next(z, w, steps[0]), steps[1..]))
  }

  ghost function After(z: Plan, w: World, steps: seq<Step>): (w': World)
    requires Set(z) && Ok(z, w) && Run(z, w, steps)
    ensures Ok(z, w')
    decreases |steps|
  {
    if steps == [] then w else After(z, Next(z, w, steps[0]), steps[1..])
  }

  function TimesPublished(steps: seq<Step>, p: F.Pub): nat {
    if steps == [] then 0
    else F.One(steps[0].Floods? && steps[0].a.Publishes? && steps[0].a.pub == p) + TimesPublished(steps[1..], p)
  }

  /** In every state of the run client s of broker x would be handed p, or in none (yes is false). */
  ghost predicate Throughout(z: Plan, w: World, steps: seq<Step>, x: Sock, p: F.Pub, s: SockId, yes: bool)
    decreases |steps|
  {
    && Set(z) && Ok(z, w) && Run(z, w, steps) && x in z.scene.t.depth && p in z.pubs
    && (s in Now(z, w, x, p)) == yes && (steps == [] || Throughout(z, Next(z, w, steps[0]), steps[1..], x, p, s, yes))
  }

  // ---- one step ----------------------------------------------------------------------------

  lemma StepShares(z: Plan, w: World, a: Step, x: Sock, p: F.Pub)
    requires Set(z) && Ok(z, w) && Enabled(z, w, a) && x in z.scene.t.brokers
    ensures F.Share(z.scene, Next(z, w, a).sky, x, p) ==
            F.Share(z.scene, w.sky, x, p) + F.One(a.Floods? && a.a.Publishes? && a.a.pub == p)
  {
    hide WellFormed, F.Share, Usable;
    if a.Floods? {
      match a.a
      case Publishes(b, p') => F.PublishShares(z.scene, w.sky, b, p', x, p);
      case Takes(i) => F.ArriveShares(z.scene, w.sky, i, x, p);
    }
  }

  /** How often broker x has handed p on. */
  ghost function Times(w: World, x: Sock, p: F.Pub): nat {
    multiset(w.sky.done)[(x, p)]
  }

  /** What one client is handed keeps pace with what its broker hands on: always, if it is served all the
  while, and never, if it is not served at all. */
  ghost predicate Paced(w: World, w': World, x: Sock, p: F.Pub, s: SockId, served: bool, unserved: bool) {
    var more, got := Times(w', x, p) as int - Times(w, x, p) as int, w'.handed[(x, p, s)] as int - w.handed[(x, p, s)] as int;
    0 <= got <= more && (served ==> got == more) && (unserved ==> got == 0)
  }

  lemma StepHands(z: Plan, w: World, a: Step, x: Sock, p: F.Pub, s: SockId)
    requires Set(z) && Ok(z, w) && Enabled(z, w, a) && x in z.scene.t.depth && p in z.pubs
    ensures Paced(w, Next(z, w, a), x, p, s, s in Now(z, w, x, p), s !in Now(z, w, x, p))
  {
    hide WellFormed, Usable, Looked, Components, F.Next, Now, Handing, Times, Grows, Fresh;
    if a.Floods? {
      DoneGrows(z, w, a.a);
      var sky := F.Next(z.scene, w.sky, a.a);
      MoreTimes(z, w.sky, sky, x, p);
      HandingOnce(z, w, sky, x, p, s);
      TimesSky(w, Next(z, w, a), x, p);
    } else {
      TimesSky(w, Next(z, w, a), x, p);
    }
  }

  lemma TimesSky(w: World, w': World, x: Sock, p: F.Pub)
    ensures Times(w, x, p) == multiset(w.sky.done)[(x, p)] && Times(w', x, p) == multiset(w'.sky.done)[(x, p)]
  {
  }

  lemma MoreTimes(z: Plan, before: F.Sky, after: F.Sky, x: Sock, p: F.Pub)
    requires Grows(z, before, after)
    ensures var added := Fresh(before, after);
      multiset(after.done)[(x, p)] == multiset(before.done)[(x, p)] + if added != [] && added[0] == (x, p) then 1 else 0
  {
    var added := Fresh(before, after);
    assert after.done == before.done + added;
    assert added == [] || added == [added[0]];
  }

  lemma HandingOnce(z: Plan, w: World, sky: F.Sky, x: Sock, p: F.Pub, s: SockId)
    requires Set(z) && Ok(z, w) && Grows(z, w.sky, sky) && x in z.scene.t.depth && p in z.pubs
    ensures var added := Fresh(w.sky, sky);
      && (added != [] ==> added[0].0 in z.scene.t.depth && added[0].1 in z.pubs)
      && Handing(z, w, added)[(x, p, s)] == if added != [] && added[0] == (x, p) && s in Now(z, w, x, p) then 1 else 0
  {
    hide Set, Ok, Now;
    var added := Fresh(w.sky, sky);
    if added != [] {
      Once(z, w, added, x, p, s);
    }
  }

  lemma Once(z: Plan, w: World, done: seq<(Sock, F.Pub)>, x: Sock, p: F.Pub, s: SockId)
    requires Set(z) && Ok(z, w) && done != [] && done[0].0 in z.scene.t.depth && done[0].1 in z.pubs
    requires x in z.scene.t.depth && p in z.pubs
    ensures Handing(z, w, done)[(x, p, s)] == if done[0] == (x, p) && s in Now(z, w, x, p) then 1 else 0
  {
    hide Set, Ok, Now;
    var (y, q) := done[0];
    var out := set c | c in Now(z, w, y, q) :: (y, q, c);
    assert (x, p, s) in out <==> done[0] == (x, p) && s in Now(z, w, x, p);
  }

  // ---- every run ---------------------------------------------------------------------------

  lemma {:induction false} RunShares(z: Plan, w: World, steps: seq<Step>, x: Sock, p: F.Pub)
    requires Set(z) && Ok(z, w) && Run(z, w, steps) && x in z.scene.t.brokers
    ensures F.Share(z.scene, After(z, w, steps).sky, x, p) == F.Share(z.scene, w.sky, x, p) + TimesPublished(steps, p)
    decreases |steps|
  {
    hide Set, Ok, F.Share, Next, Enabled;
    if steps != [] {
      StepShares(z, w, steps[0], x, p);
      RunShares(z, Next(z, w, steps[0]), steps[1..], x, p);
    }
  }

  /** What clients are handed keeps pace with what their broker hands on. */
  lemma {:induction false} RunHands(z: Plan, w: World, steps: seq<Step>, x: Sock, p: F.Pub, s: SockId)
    requires Set(z) && Ok(z, w) && Run(z, w, steps) && x in z.scene.t.depth && p in z.pubs
    ensures Paced(w, After(z, w, steps), x, p, s, Throughout(z, w, steps, x, p, s, true), Throughout(z, w, steps, x, p, s, false))
    decreases |steps|
  {
    hide Set, Ok, Next, Enabled, Times, Now;
    if steps != [] {
      StepHands(z, w, steps[0], x, p, s);
      RunHands(z, Next(z, w, steps[0]), steps[1..], x, p, s);
    }
  }

  /** A publication made once, at any broker, while clients everywhere subscribe, take back and leave, its
  copies arriving in any order: no client is ever handed it twice; and once no copy is left, every
  client of every broker that had a subscription standing for it all the time has been handed it
  exactly once, and every client that never had one has not. */
  lemma HandedOnce(z: Plan, acts: map<Sock, seq<Act>>, steps: seq<Step>, x: Sock, p: F.Pub, s: SockId)
    requires Set(z) && Ok(z, World(F.Sky([], []), acts, multiset{})) && Run(z, World(F.Sky([], []), acts, multiset{}), steps)
    requires x in z.scene.t.depth && p in z.pubs && TimesPublished(steps, p) == 1
    ensures var start := World(F.Sky([], []), acts, multiset{}); var w := After(z, start, steps);
      && w.handed[(x, p, s)] <= 1
      && (Throughout(z, start, steps, x, p, s, false) ==> w.handed[(x, p, s)] == 0)
      && (w.sky.copies == [] && Throughout(z, start, steps, x, p, s, true) ==> w.handed[(x, p, s)] == 1)
  {
    hide Set, Ok, Now, F.Share, Times;
    var start := World(F.Sky([], []), acts, multiset{});
    InTree(z, x);
    RunShares(z, start, steps, x, p);
    RunHands(z, start, steps, x, p, s);
    NoShare(z, start, x, p);
    NoShare(z, After(z, start, steps), x, p);
  }

  lemma InTree(z: Plan, x: Sock)
    requires Set(z) && x in z.scene.t.depth
    ensures x in z.scene.t.brokers
  {
  }

  lemma NoShare(z: Plan, w: World, x: Sock, p: F.Pub)
    requires Set(z)
    ensures F.Share(z.scene, w.sky, x, p) >= Times(w, x, p)
    ensures w.sky.copies == [] ==> F.Share(z.scene, w.sky, x, p) == Times(w, x, p)
  {
  }
}
