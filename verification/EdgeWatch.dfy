/** The poller that turns gate readings into wake-ups (edgeGateWatch in
    cmd/galactic-router/edgegate.go), and what its wake-ups keep true. */
module EdgeWatch {
  import opened Common

  // ---- One poll

  /** An edge route's advertisement as a poll lists it, with its gate's reading. */
  datatype Item = Item(key: string, router: string, open: bool)

  predicate UniqueKeys(items: seq<Item>) {
    forall i, j | 0 <= i < j < |items| :: items[i].key != items[j].key
  }

  /** A poll looks at it: its router is this node's. */
  predicate Mine(mine: set<string>, item: Item) {
    item.router in mine
  }

  predicate Known(last: map<string, bool>, item: Item) {
    item.key in last && last[item.key] == item.open
  }

  /** The items woken for, in list order. */
  function Woken(mine: set<string>, last: map<string, bool>, items: seq<Item>): seq<Item> {
    if items == [] then []
    else
      var item := items[|items| - 1];
      Woken(mine, last, items[..|items| - 1]) + if Mine(mine, item) && !Known(last, item) then [item] else []
  }

  lemma {:induction false} WokenExactly(mine: set<string>, last: map<string, bool>, items: seq<Item>, item: Item)
    ensures item in Woken(mine, last, items) <==> item in items && Mine(mine, item) && !Known(last, item)
  {
    if items != [] {
      WokenExactly(mine, last, items[..|items| - 1], item);
      assert items == items[..|items| - 1] + [items[|items| - 1]];
    }
  }

  function Seen(mine: set<string>, items: seq<Item>): map<string, bool> {
    if items == [] then map[]
    else
      var before, item := Seen(mine, items[..|items| - 1]), items[|items| - 1];
      if Mine(mine, item) then before[item.key := item.open] else before
  }

  predicate Has(m: map<string, bool>, k: string, b: bool) {
    k in m && m[k] == b
  }

  predicate IsItem(item: Item, mine: set<string>, k: string, b: bool) {
    item.key == k && item.open == b && Mine(mine, item)
  }

  ghost predicate Listed(items: seq<Item>, mine: set<string>, k: string, b: bool) {
    exists item | item in items :: IsItem(item, mine, k, b)
  }

  /** The snapshot holds exactly this node's items. */
  lemma {:induction false} SeenExactly(mine: set<string>, items: seq<Item>, key: string, open: bool)
    requires UniqueKeys(items)
    ensures Has(Seen(mine, items), key, open) <==> Listed(items, mine, key, open)
  {
    if items != [] {
      var before, last := items[..|items| - 1], items[|items| - 1];
      SeenExactly(mine, before, key, open);
      assert items == before + [last];
      if Listed(before, mine, key, open) {
        var item :| item in before && IsItem(item, mine, key, open);
        assert item in items && item.key != last.key;
      } else if IsItem(last, mine, key, open) {
        assert last in items;
      }
    }
  }

  /** A successful poll. */
  method Poll(mine: set<string>, last: map<string, bool>, items: seq<Item>)
    returns (seen: map<string, bool>, wakes: seq<string>, ghost woken: seq<Item>)
    ensures seen == Seen(mine, items)
    ensures woken == Woken(mine, last, items) && |wakes| == |woken|
    ensures forall i | 0 <= i < |wakes| :: wakes[i] == woken[i].router
  {
    seen, wakes, woken := map[], [], [];
    for n := 0 to |items|
      invariant seen == Seen(mine, items[..n])
      invariant woken == Woken(mine, last, items[..n]) && |wakes| == |woken|
      invariant forall i | 0 <= i < |wakes| :: wakes[i] == woken[i].router
    {
      assert items[..n + 1][..n] == items[..n];
      var item := items[n];
      if item.router !in mine {
        continue;
      }
      seen := seen[item.key := item.open];
      if item.key in last && last[item.key] == item.open {
        continue;
      }
      wakes, woken := wakes + [item.router], woken + [item];
    }
    assert items[..|items|] == items;
  }

  // ---- All routes over a whole run

  /** A router's reconcile: none, not yet at the gates, or holding the set of open
      routes it is about to advertise. */
  datatype Reconcile = Idle | Started | Decided(open: set<string>)

  /** gates are the node's edge routes and their gates; last is the poller's
      snapshot; queued says a wake-up of the router waits. announced are the
      routes that came or went since the last successful poll, which the API tells
      the router of, and whose gate has not changed since. */
  datatype World = World(
    gates: map<string, bool>, advertised: set<string>, last: map<string, bool>,
    queued: bool, reconcile: Reconcile, announced: set<string>)

  predicate Open(w: World, k: string) {
    k in w.gates && w.gates[k]
  }

  datatype Event =
    | Change(key: string)
    | Appear(key: string, open: bool)
    | Vanish(key: string)
    | Polled(items: seq<Item>)
    | PollFails
    | Wake          // any other reason to reconcile
    | Start
    | ReadGates
    | ApplyReading
    | ReconcileFails   // and is queued again, with nothing applied

  /** items is a list of all routes, this node's as gates has them. */
  ghost predicate Lists(items: seq<Item>, mine: set<string>, gates: map<string, bool>) {
    UniqueKeys(items) && forall k, b :: Has(gates, k, b) <==> Listed(items, mine, k, b)
  }

  ghost predicate Enabled(mine: set<string>, w: World, e: Event) {
    match e
    case Change(k) => k in w.gates
    case Appear(k, _) => k !in w.gates
    case Vanish(k) => k in w.gates
    case Polled(items) => Lists(items, mine, w.gates)
    case PollFails => true
    case Wake => true
    case Start => w.reconcile.Idle? && w.queued
    case ReadGates => w.reconcile.Started?
    case ApplyReading => w.reconcile.Decided?
    case ReconcileFails => !w.reconcile.Idle?
  }

  function After(mine: set<string>, w: World, e: Event): World {
    match e
    case Change(k) =>
      if k in w.gates then w.(gates := w.gates[k := !w.gates[k]], announced := w.announced - {k}) else w
    case Appear(k, b) => w.(gates := w.gates[k := b], queued := true, announced := w.announced + {k})
    case Vanish(k) => w.(gates := w.gates - {k}, queued := true, announced := w.announced + {k})
    case Polled(items) =>
      w.(last := Seen(mine, items), queued := w.queued || Woken(mine, w.last, items) != [], announced := {})
    case PollFails => w
    case Wake => w.(queued := true)
    case Start => w.(queued := false, reconcile := Started)
    case ReadGates => w.(reconcile := Decided(set k | k in w.gates && w.gates[k]))
    case ApplyReading =>
      if w.reconcile.Decided? then w.(reconcile := Idle, advertised := w.reconcile.open) else w
    case ReconcileFails => w.(reconcile := Idle, queued := true)
  }

  ghost predicate Next(mine: set<string>, w: World, v: World, e: Event) {
    Enabled(mine, w, e) && v == After(mine, w, e)
  }

  /** Nothing the polls asked for is left to do. */
  predicate Settled(w: World) {
    !w.queued && w.reconcile.Idle?
  }

  /** A poll would wake the router for the route. */
  predicate Differs(w: World, k: string) {
    k in w.gates && !(k in w.last && w.last[k] == w.gates[k])
  }

  /** No gate changes back, before the next successful poll, to what the last one
      saw. */
  predicate NoReturn(w: World, e: Event) {
    e.Change? ==> !(e.key in w.gates && e.key in w.last && w.last[e.key] != w.gates[e.key])
  }

  /** Short of a change the next poll sees, what is or will be advertised is right
      unless a reconcile is still to read the gate. */
  predicate AdvertisedOk(w: World, k: string) {
    !w.queued && (!Differs(w, k) || k in w.announced) ==>
      && (w.reconcile.Idle? ==> (k in w.advertised <==> Open(w, k)))
      && (w.reconcile.Decided? ==> (k in w.reconcile.open <==> Open(w, k)))
  }

  ghost predicate Inv(w: World) {
    forall k :: AdvertisedOk(w, k)
  }

  lemma SameMap(m: map<string, bool>, n: map<string, bool>)
    requires forall k, b :: Has(m, k, b) <==> Has(n, k, b)
    ensures m == n
  {
    forall k | k in m
      ensures k in n && n[k] == m[k]
    {
      assert Has(m, k, m[k]);
    }
    forall k | k in n
      ensures k in m
    {
      assert Has(n, k, n[k]);
    }
  }

  /** A poll takes over every gate as it is, and wakes the router for every route
      that is new or changed. */
  lemma PollTakesOver(mine: set<string>, last: map<string, bool>, gates: map<string, bool>, items: seq<Item>)
    requires Lists(items, mine, gates)
    ensures Seen(mine, items) == gates
    ensures Woken(mine, last, items) == [] <==> forall k | k in gates :: k in last && last[k] == gates[k]
  {
    forall k, b
      ensures Has(Seen(mine, items), k, b) <==> Has(gates, k, b)
    {
      SeenExactly(mine, items, k, b);
    }
    SameMap(Seen(mine, items), gates);
    if Woken(mine, last, items) != [] {
      var item := Woken(mine, last, items)[0];
      WokenExactly(mine, last, items, item);
      assert IsItem(item, mine, item.key, item.open) && Listed(items, mine, item.key, item.open);
      assert Has(gates, item.key, item.open);
    } else {
      forall k | k in gates
        ensures k in last && last[k] == gates[k]
      {
        assert Has(gates, k, gates[k]) && Listed(items, mine, k, gates[k]);
        var item :| item in items && IsItem(item, mine, k, gates[k]);
        WokenExactly(mine, last, items, item);
      }
    }
  }

  lemma NextInv(mine: set<string>, w: World, v: World, e: Event)
    requires Inv(w) && Next(mine, w, v, e) && NoReturn(w, e)
    ensures Inv(v)
  {
    if e.Polled? {
      PollTakesOver(mine, w.last, w.gates, e.items);
    }
    forall k
      ensures AdvertisedOk(v, k)
    {
      assert AdvertisedOk(w, k);
    }
  }

  const NO_ROUTES := World(map[], {}, map[], false, Idle, {})

  ghost predicate Run(mine: set<string>, worlds: seq<World>, events: seq<Event>) {
    && |worlds| == |events| + 1 && worlds[0] == NO_ROUTES
    && forall i | 0 <= i < |events| :: Next(mine, worlds[i], worlds[i + 1], events[i])
  }

  lemma {:induction false} RunInv(mine: set<string>, worlds: seq<World>, events: seq<Event>, i: nat)
    requires Run(mine, worlds, events) && i < |worlds|
    requires forall k | 0 <= k < i :: NoReturn(worlds[k], events[k])
    ensures Inv(worlds[i])
  {
    if i > 0 {
      RunInv(mine, worlds, events, i - 1);
      NextInv(mine, worlds[i - 1], worlds[i], events[i - 1]);
    }
  }

  /** In every run of polls, failed lists, reconciles, gate changes and routes that
      come and go: after each poll and its wake-ups every route is advertised
      exactly when its gate is open, until its gate changes again. A route that
      comes or goes is so before the next poll too, until its gate changes. */
  lemma AdvertisedIsOpen(mine: set<string>, worlds: seq<World>, events: seq<Event>, i: nat, k: string)
    requires Run(mine, worlds, events) && i < |worlds|
    requires forall j | 0 <= j < i :: NoReturn(worlds[j], events[j])
    requires Settled(worlds[i]) && (!Differs(worlds[i], k) || k in worlds[i].announced)
    ensures k in worlds[i].advertised <==> Open(worlds[i], k)
  {
    RunInv(mine, worlds, events, i);
    assert AdvertisedOk(worlds[i], k);
  }

  // ---- Exactly what a poll misses

  predicate Odd(n: int) {
    n % 2 == 1
  }

  /** How often a route's gate changed: in all, before the reading that was last
      applied, and before the reading that was last taken. */
  datatype Tally = Tally(changes: nat, applied: nat, taken: nat)

  function Counted(t: Tally, e: Event, k: string): Tally {
    if e == Change(k) then t.(changes := t.changes + 1)
    else if e.ReadGates? then t.(taken := t.changes)
    else if e.ApplyReading? then t.(applied := t.taken)
    else t
  }

  function Count(events: seq<Event>, k: string): Tally {
    if events == [] then Tally(0, 0, 0)
    else Counted(Count(events[..|events| - 1], k), events[|events| - 1], k)
  }

  /** Whether the route is advertised once the reconcile under way and a queued one
      are done. */
  predicate Finally(w: World, k: string) {
    if w.queued || w.reconcile.Started? then Open(w, k)
    else if w.reconcile.Decided? then k in w.reconcile.open
    else k in w.advertised
  }

  /** The gate changed an odd number of times since the reading was taken that is
      applied in the end; one that is still to be taken is never behind. */
  predicate Behind(w: World, t: Tally) {
    !w.queued &&
      ((w.reconcile.Idle? && Odd(t.changes - t.applied)) || (w.reconcile.Decided? && Odd(t.changes - t.taken)))
  }

  lemma OddNext(n: int)
    ensures Odd(n + 1) == !Odd(n)
  {
  }

  lemma BehindStep(mine: set<string>, w: World, v: World, e: Event, k: string, t: Tally)
    requires Next(mine, w, v, e) && (Finally(w, k) != Open(w, k) <==> Behind(w, t))
    ensures Finally(v, k) != Open(v, k) <==> Behind(v, Counted(t, e, k))
  {
    if e == Change(k) {
      OddNext(t.changes - t.applied);
      OddNext(t.changes - t.taken);
      assert Open(v, k) == !Open(w, k);
    }
  }

  /** In every state of every run, for every route, whether it stays or comes and
      goes: it ends advertised wrongly, short of a further wake-up, exactly when the
      reading applied in the end is behind. */
  lemma {:induction false} WrongExactly(mine: set<string>, worlds: seq<World>, events: seq<Event>, i: nat, k: string)
    requires Run(mine, worlds, events) && i < |worlds|
    ensures Finally(worlds[i], k) != Open(worlds[i], k) <==> Behind(worlds[i], Count(events[..i], k))
  {
    if i > 0 {
      WrongExactly(mine, worlds, events, i - 1, k);
      assert events[..i][..i - 1] == events[..i - 1];
      BehindStep(mine, worlds[i - 1], worlds[i], events[i - 1], k, Count(events[..i - 1], k));
    }
  }

  /** So a poll leaves it wrong exactly when that holds and every route is as the
      poll before saw it. */
  lemma PollLeavesWrong(mine: set<string>, worlds: seq<World>, events: seq<Event>, k: string, items: seq<Item>)
    requires Run(mine, worlds, events) && Lists(items, mine, worlds[|events|].gates)
    ensures var before := worlds[|events|];
            var after := After(mine, before, Polled(items));
            Finally(after, k) != Open(after, k) <==>
              Behind(before, Count(events, k)) && forall j :: !Differs(before, j)
  {
    var before := worlds[|events|];
    assert events[..|events|] == events;
    WrongExactly(mine, worlds, events, |events|, k);
    PollTakesOver(mine, before.last, before.gates, items);
    if Woken(mine, before.last, items) != [] {
      var j :| j in before.gates && !(j in before.last && before.last[j] == before.gates[j]);
      assert Differs(before, j);
    }
  }

  /** The route is as the last successful poll saw it, and is or will be advertised
      so. */
  predicate Right(w: World, k: string) {
    k in w.gates && k in w.last && w.last[k] == w.gates[k] && Finally(w, k) == w.gates[k]
  }

  /** Since a poll that saw the gate at poll, each reading is that, flipped by every
      change before it. */
  ghost predicate Tracks(w: World, k: string, poll: bool, t: Tally) {
    && k in w.gates && k in w.last && w.last[k] == poll
    && w.gates[k] == (poll != Odd(t.changes))
    && (!w.queued && w.reconcile.Idle? ==> ((k in w.advertised) <==> (poll != Odd(t.applied))))
    && (!w.queued && w.reconcile.Decided? ==> ((k in w.reconcile.open) <==> (poll != Odd(t.taken))))
  }

  predicate Passes(e: Event, k: string) {
    !e.Polled? && !(e.Appear? && e.key == k) && !(e.Vanish? && e.key == k)
  }

  /** No successful poll, and the route stays. */
  ghost predicate Interval(mine: set<string>, worlds: seq<World>, events: seq<Event>, k: string) {
    && |worlds| == |events| + 1 && Right(worlds[0], k)
    && forall i | 0 <= i < |events| :: Next(mine, worlds[i], worlds[i + 1], events[i]) && Passes(events[i], k)
  }

  lemma TracksStep(mine: set<string>, w: World, v: World, e: Event, k: string, poll: bool, events: seq<Event>)
    requires Next(mine, w, v, e) && Passes(e, k) && Tracks(w, k, poll, Count(events, k))
    ensures Tracks(v, k, poll, Count(events + [e], k))
  {
    assert (events + [e])[..|events|] == events;
  }

  lemma {:induction false} IntervalTracks(mine: set<string>, worlds: seq<World>, events: seq<Event>, k: string, i: nat)
    requires Interval(mine, worlds, events, k) && i < |worlds|
    ensures Tracks(worlds[i], k, worlds[0].gates[k], Count(events[..i], k))
  {
    if i > 0 {
      IntervalTracks(mine, worlds, events, k, i - 1);
      TracksStep(mine, worlds[i - 1], worlds[i], events[i - 1], k, worlds[0].gates[k], events[..i - 1]);
      assert events[..i - 1] + [events[i - 1]] == events[..i];
    }
  }

  /** A route that goes ends withdrawn, and a reconcile that fails is done again. */
  lemma GoneIsWithdrawn(mine: set<string>, w: World, v: World, e: Event)
    requires Next(mine, w, v, e) && (e.Vanish? || e.ReconcileFails?)
    ensures e.Vanish? ==> !Finally(v, e.key)
    ensures e.ReconcileFails? ==> Enabled(mine, v, Start) && forall k :: Finally(v, k) == Open(v, k)
  {
  }

  /** Only work that is already due. */
  predicate Due(e: Event) {
    e.Start? || e.ReadGates? || e.ApplyReading?
  }

  /** Whatever order due work is done in, it ends there. */
  lemma {:induction false} SettlesFinally(mine: set<string>, worlds: seq<World>, events: seq<Event>, k: string, i: nat)
    requires |worlds| == |events| + 1 && i < |worlds|
    requires forall j | 0 <= j < |events| :: Next(mine, worlds[j], worlds[j + 1], events[j]) && Due(events[j])
    ensures Finally(worlds[i], k) == Finally(worlds[0], k) && Open(worlds[i], k) == Open(worlds[0], k)
    ensures Settled(worlds[i]) ==> ((k in worlds[i].advertised) <==> Finally(worlds[0], k))
  {
    if i > 0 {
      SettlesFinally(mine, worlds, events, k, i - 1);
      assert Next(mine, worlds[i - 1], worlds[i], events[i - 1]) && Due(events[i - 1]);
    }
  }

  /** The reading that is applied in the end came after an odd number of changes;
      one that is still to be taken never does. */
  predicate Stale(w: World, t: Tally) {
    (w.reconcile.Idle? && Odd(t.applied)) || (w.reconcile.Decided? && Odd(t.taken))
  }

  /** From a successful poll that left the route right to the next one: once the
      router settles after it, the route is advertised wrongly exactly when the poll
      queued nothing, its gate changed an even number of times, and the reading
      applied in the end came after an odd number of them. */
  lemma PollMissesExactly(mine: set<string>, worlds: seq<World>, events: seq<Event>, k: string, items: seq<Item>)
    requires Interval(mine, worlds, events, k)
    requires Lists(items, mine, worlds[|events|].gates)
    ensures var before, t := worlds[|events|], Count(events, k);
            var after := After(mine, before, Polled(items));
            Finally(after, k) != Open(after, k) <==> !after.queued && !Odd(t.changes) && Stale(before, t)
  {
    var before, n := worlds[|events|], |events|;
    IntervalTracks(mine, worlds, events, k, n);
    assert events[..n] == events;
    PollTakesOver(mine, before.last, before.gates, items);
  }

  // ---- Both ways of missing happen

  ghost predicate Reachable(mine: set<string>, w: World) {
    exists worlds: seq<World>, events: seq<Event> :: Run(mine, worlds, events) && worlds[|events|] == w
  }

  lemma ReachNext(mine: set<string>, w: World, e: Event, v: World)
    requires Reachable(mine, w) && Next(mine, w, v, e)
    ensures Reachable(mine, v)
  {
    var worlds: seq<World>, events: seq<Event> :| Run(mine, worlds, events) && worlds[|events|] == w;
    var more, longer := worlds + [v], events + [e];
    forall i | 0 <= i < |longer|
      ensures Next(mine, more[i], more[i + 1], longer[i])
    {
      if i < |events| {
        assert Next(mine, worlds[i], worlds[i + 1], events[i]);
      }
    }
    assert Run(mine, more, longer) && more[|longer|] == v;
  }

  /** A world with one route, nothing going on, as the last poll saw it. */
  function One(k: string, open: bool, advertised: bool): World {
    World(map[k := open], if advertised then {k} else {}, map[k := open], false, Idle, {})
  }

  lemma ListOne(k: string, router: string, open: bool)
    ensures Lists([Item(k, router, open)], {router}, map[k := open])
  {
    var item := Item(k, router, open);
    forall key, b
      ensures Has(map[k := open], key, b) <==> Listed([item], {router}, key, b)
    {
      if Has(map[k := open], key, b) {
        assert item in [item] && IsItem(item, {router}, key, b);
      }
    }
  }

  /** A poll of a world with one route, from any time before it. */
  lemma ReachPoll(router: string, k: string, w: World)
    requires Reachable({router}, w) && w.gates.Keys == {k}
    ensures var again := w.queued || !(k in w.last && w.last[k] == w.gates[k]);
            Reachable({router}, w.(last := w.gates, queued := again, announced := {}))
  {
    var items := [Item(k, router, w.gates[k])];
    ListOne(k, router, w.gates[k]);
    assert w.gates == map[k := w.gates[k]];
    PollTakesOver({router}, w.last, w.gates, items);
    ReachNext({router}, w, Polled(items), After({router}, w, Polled(items)));
  }

  /** A whole reconcile. */
  lemma ReachReconcile(mine: set<string>, w: World)
    requires Reachable(mine, w) && w.reconcile.Idle?
    ensures Reachable(mine, w.(queued := false, advertised := set k | k in w.gates && w.gates[k]))
  {
    var w1 := w.(queued := true);
    ReachNext(mine, w, Wake, w1);
    var w2 := w.(queued := false, reconcile := Started);
    ReachNext(mine, w1, Start, w2);
    var w3 := w2.(reconcile := Decided(set k | k in w.gates && w.gates[k]));
    ReachNext(mine, w2, ReadGates, w3);
    ReachNext(mine, w3, ApplyReading, w.(queued := false, advertised := set k | k in w.gates && w.gates[k]));
  }

  lemma ReachOne(router: string, k: string)
    ensures Reachable({router}, One(k, false, false))
  {
    assert Run({router}, [NO_ROUTES], []);
    var w1 := World(map[k := false], {}, map[], true, Idle, {k});
    ReachNext({router}, NO_ROUTES, Appear(k, false), w1);
    ReachPoll(router, k, w1);
    var w2 := World(map[k := false], {}, map[k := false], true, Idle, {});
    ReachReconcile({router}, w2);
    assert (set x | x in w2.gates && w2.gates[x]) == {};
  }

  /** A gate that opens, is seen by an unrelated reconcile, and closes again before
      the next poll leaves its route advertised with its gate closed. */
  lemma FlapIsMissed(router: string, k: string)
    ensures Reachable({router}, One(k, false, true))
  {
    ReachOne(router, k);
    var w0 := One(k, false, false);
    var w1 := w0.(gates := map[k := true]);
    ReachNext({router}, w0, Change(k), w1);
    ReachReconcile({router}, w1);
    assert (set x | x in w1.gates && w1.gates[x]) == {k};
    var w2 := w1.(advertised := {k});
    var w3 := w2.(gates := map[k := false]);
    ReachNext({router}, w2, Change(k), w3);
    ReachPoll(router, k, w3);
  }

  /** So does one that closes again while a reconcile holds its reading: the poll
      queues nothing, and the stale reading is still to be applied. */
  lemma StaleReadingIsMissed(router: string, k: string)
    ensures var w := One(k, false, false).(reconcile := Decided({k}));
            Reachable({router}, w) && Finally(w, k) && !Open(w, k)
  {
    ReachOne(router, k);
    var w0 := One(k, false, false);
    var w1 := w0.(gates := map[k := true]);
    ReachNext({router}, w0, Change(k), w1);
    ReachNext({router}, w1, Wake, w1.(queued := true));
    ReachNext({router}, w1.(queued := true), Start, w1.(reconcile := Started));
    assert (set x | x in w1.gates && w1.gates[x]) == {k};
    ReachNext({router}, w1.(reconcile := Started), ReadGates, w1.(reconcile := Decided({k})));
    var w2 := w1.(gates := map[k := false], reconcile := Decided({k}));
    ReachNext({router}, w1.(reconcile := Decided({k})), Change(k), w2);
    ReachPoll(router, k, w2);
    assert w2.(last := w2.gates, queued := false, announced := {}) == w0.(reconcile := Decided({k}));
  }
}
