/** The per-container annotations of a BGPAdvertisement and the prefixes merged
    from them (internal/cnibgp/bgp.go, keys in internal/crdnames/crdnames.go). */
module Advertisement {
  import opened Common
  import opened SortedStrings

  // ---- Annotation keys

  /** The prefixes of the three kinds of per-container keys, each ending in a dot
      and followed by the container's truncated ID, and the marker for an
      attachment without addressing. */
  datatype Keys = Keys(netns: string, v6: string, v4: string, none: string)

  const GALACTIC := Keys(
    "galactic.datum.net/netns.", "galactic.datum.net/allocated-subnet-ipv6.",
    "galactic.datum.net/allocated-subnet-ipv4.", "galactic.datum.net/no-addressing")

  /** No two kinds of keys meet. */
  predicate Apart(k: Keys) {
    && !(k.netns <= k.v6) && !(k.v6 <= k.netns)
    && !(k.netns <= k.v4) && !(k.v4 <= k.netns)
    && !(k.v6 <= k.v4) && !(k.v4 <= k.v6)
    && !(k.netns <= k.none) && !(k.v6 <= k.none) && !(k.v4 <= k.none)
  }

  lemma GalacticKeysApart()
    ensures Apart(GALACTIC)
  {
    assert GALACTIC.netns[19] == 'n' && GALACTIC.v6[19] == 'a' && GALACTIC.v4[19] == 'a';
    assert GALACTIC.v6[39] == '6' && GALACTIC.v4[39] == '4' && GALACTIC.netns[20] == 'e' && GALACTIC.none[20] == 'o';
  }

  /** Keys of one kind are told apart by the container, keys of two kinds always. */
  lemma KeysDiffer(k: Keys, c: string, d: string)
    requires Apart(k)
    ensures k.netns + c != k.v6 + d && k.netns + c != k.v4 + d && k.v6 + c != k.v4 + d
    ensures k.netns + c == k.netns + d ==> c == d
    ensures k.v6 + c == k.v6 + d ==> c == d
    ensures k.v4 + c == k.v4 + d ==> c == d
  {
    NotJoined(k.netns, k.v6, c, d);
    NotJoined(k.netns, k.v4, c, d);
    NotJoined(k.v6, k.v4, c, d);
    Suffixes(k.netns, c);
    Suffixes(k.netns, d);
    Suffixes(k.v6, c);
    Suffixes(k.v6, d);
    Suffixes(k.v4, c);
    Suffixes(k.v4, d);
  }

  lemma Suffixes(p: string, c: string)
    ensures p <= p + c && (p + c)[|p|..] == c
  {
  }

  lemma NotJoined(p: string, q: string, c: string, d: string)
    requires !(p <= q) && !(q <= p)
    ensures p + c != q + d
  {
    NotPrefix(p, q, d);
    Suffixes(p, c);
  }

  type Annotations = map<string, string>

  predicate Recorded(k: Keys, a: Annotations, c: string) {
    k.netns + c in a
  }

  predicate Live(k: Keys, a: Annotations, alive: string -> bool, c: string) {
    Recorded(k, a, c) && alive(a[k.netns + c])
  }

  /** Every recorded subnet belongs to a recorded container. */
  ghost predicate Valid(k: Keys, a: Annotations) {
    forall c :: (k.v6 + c in a || k.v4 + c in a) ==> Recorded(k, a, c)
  }

  // ---- Pruning

  predicate KeyFor(k: Keys, c: string, key: string) {
    key == k.netns + c || key == k.v6 + c || key == k.v4 + c
  }

  predicate Doomed(k: Keys, a: Annotations, alive: string -> bool, c: string) {
    Recorded(k, a, c) && !alive(a[k.netns + c])
  }

  /** A key of a container whose namespace is gone. */
  ghost predicate Dead(k: Keys, a: Annotations, alive: string -> bool, key: string) {
    exists c :: Doomed(k, a, alive, c) && KeyFor(k, c, key)
  }

  ghost predicate Cleared(k: Keys, r: Annotations, c: string) {
    forall key | KeyFor(k, c, key) :: key !in r
  }

  /** The annotations after pruning. */
  ghost predicate Pruned(k: Keys, a: Annotations, alive: string -> bool, r: Annotations) {
    && (forall key :: key in r <==> key in a && !Dead(k, a, alive, key))
    && forall key | key in r :: r[key] == a[key]
  }

  /** Pruning with todo still to walk. */
  ghost predicate Pruning(k: Keys, a: Annotations, alive: string -> bool, todo: set<string>, r: Annotations) {
    && (forall key | key in r :: key in a && r[key] == a[key])
    && (forall key :: key in a && key !in r ==> Dead(k, a, alive, key))
    && forall c :: Doomed(k, a, alive, c) && k.netns + c !in todo ==> Cleared(k, r, c)
  }

  lemma PruneSkips(k: Keys, a: Annotations, alive: string -> bool, todo: set<string>, r: Annotations, key: string)
    requires Pruning(k, a, alive, todo, r) && key in a && (!(k.netns <= key) || alive(a[key]))
    ensures Pruning(k, a, alive, todo - {key}, r)
  {
    forall c | Doomed(k, a, alive, c) && k.netns + c !in todo - {key}
      ensures Cleared(k, r, c)
    {
      Suffixes(k.netns, c);
    }
  }

  lemma PruneClears(k: Keys, a: Annotations, alive: string -> bool, todo: set<string>, r: Annotations, c: string)
    requires Pruning(k, a, alive, todo, r) && Doomed(k, a, alive, c)
    ensures Pruning(k, a, alive, todo - {k.netns + c}, r - {k.netns + c, k.v6 + c, k.v4 + c})
  {
    var t := r - {k.netns + c, k.v6 + c, k.v4 + c};
    forall key | key in r && key !in t
      ensures Dead(k, a, alive, key)
    {
      assert KeyFor(k, c, key);
    }
    forall d | Doomed(k, a, alive, d) && k.netns + d !in todo - {k.netns + c}
      ensures Cleared(k, t, d)
    {
      Suffixes(k.netns, c);
      Suffixes(k.netns, d);
      assert d == c || Cleared(k, r, d);
    }
  }

  lemma PruneEnds(k: Keys, a: Annotations, alive: string -> bool, r: Annotations)
    requires Pruning(k, a, alive, {}, r)
    ensures Pruned(k, a, alive, r)
  {
    forall key | Dead(k, a, alive, key)
      ensures key !in r
    {
      var c :| Doomed(k, a, alive, c) && KeyFor(k, c, key);
      assert Cleared(k, r, c);
    }
  }

  /** Removes exactly the keys of dead containers, in whatever order the map is
      walked. */
  method PruneDead(k: Keys, a: Annotations, alive: string -> bool) returns (r: Annotations)
    ensures Pruned(k, a, alive, r)
  {
    r := a;
    var todo := a.Keys;
    while todo != {}
      invariant todo <= a.Keys && Pruning(k, a, alive, todo, r)
      decreases |todo|
    {
      var key :| key in todo;
      if !(k.netns <= key) || alive(a[key]) {
        PruneSkips(k, a, alive, todo, r, key);
        todo := todo - {key};
        continue;
      }
      var c := key[|k.netns|..];
      assert key == k.netns + c;
      PruneClears(k, a, alive, todo, r, c);
      todo := todo - {key};
      r := r - {key, k.v6 + c, k.v4 + c};
    }
    PruneEnds(k, a, alive, r);
  }

  /** Pruning never touches a live container's keys. */
  lemma LiveKept(k: Keys, a: Annotations, alive: string -> bool, c: string)
    requires Apart(k) && Live(k, a, alive, c)
    ensures !Dead(k, a, alive, k.netns + c) && !Dead(k, a, alive, k.v6 + c) && !Dead(k, a, alive, k.v4 + c)
  {
    forall d
      ensures k.netns + c != k.v6 + d && k.netns + c != k.v4 + d && k.v6 + c != k.v4 + d && k.v4 + c != k.v6 + d
      ensures k.v6 + c != k.netns + d && k.v4 + c != k.netns + d
      ensures (k.netns + c == k.netns + d || k.v6 + c == k.v6 + d || k.v4 + c == k.v4 + d) ==> c == d
    {
      KeysDiffer(k, c, d);
      KeysDiffer(k, d, c);
    }
  }

  // ---- Merging

  /** A prefix recorded for a container. */
  predicate Holds(k: Keys, a: Annotations, c: string, p: string) {
    (k.v6 + c in a && p == a[k.v6 + c]) || (k.v4 + c in a && p == a[k.v4 + c] + "/32")
  }

  /** A key's prefix, if it is a subnet key. */
  predicate Gives(k: Keys, a: Annotations, key: string, p: string) {
    key in a && ((k.v6 <= key && p == a[key]) || (!(k.v6 <= key) && k.v4 <= key && p == a[key] + "/32"))
  }

  /** The prefixes of every subnet key, sorted and without repeats, in whatever
      order the map is walked. */
  method AllAdvertisedPrefixes(k: Keys, a: Annotations) returns (prefixes: seq<string>)
    ensures Ascending(prefixes)
    ensures forall p :: p in prefixes <==> exists key :: Gives(k, a, key, p)
  {
    prefixes := [];
    var todo := a.Keys;
    while todo != {}
      invariant todo <= a.Keys && Ascending(prefixes)
      invariant forall p | p in prefixes :: exists key :: Gives(k, a, key, p)
      invariant forall key, p | key in a && key !in todo && Gives(k, a, key, p) :: p in prefixes
      decreases |todo|
    {
      var key :| key in todo;
      todo := todo - {key};
      if k.v6 <= key {
        assert Gives(k, a, key, a[key]);
        prefixes := AddUnique(prefixes, a[key]);
      } else if k.v4 <= key {
        assert Gives(k, a, key, a[key] + "/32");
        prefixes := AddUnique(prefixes, a[key] + "/32");
      }
    }
  }

  method AddUnique(s: seq<string>, x: string) returns (r: seq<string>)
    requires Ascending(s)
    ensures Ascending(r) && forall y :: y in r <==> y in s || y == x
  {
    if x in s {
      return s;
    }
    r := Insert(s, x);
  }

  lemma GivesIsHeld(k: Keys, a: Annotations, key: string, p: string)
    requires Apart(k) && Gives(k, a, key, p)
    ensures exists c :: Holds(k, a, c, p)
  {
    if k.v6 <= key {
      assert key == k.v6 + key[|k.v6|..];
      assert Holds(k, a, key[|k.v6|..], p);
    } else {
      assert key == k.v4 + key[|k.v4|..];
      assert Holds(k, a, key[|k.v4|..], p);
    }
  }

  lemma NotPrefix(p: string, q: string, c: string)
    requires !(p <= q) && !(q <= p)
    ensures !(p <= q + c)
  {
    var n := if |p| <= |q| then |p| else |q|;
    assert (q + c)[..n] == q[..n];
  }

  lemma HeldIsGiven(k: Keys, a: Annotations, c: string, p: string)
    requires Apart(k) && Holds(k, a, c, p)
    ensures exists key :: Gives(k, a, key, p)
  {
    Suffixes(k.v6, c);
    Suffixes(k.v4, c);
    if k.v6 + c in a && p == a[k.v6 + c] {
      assert Gives(k, a, k.v6 + c, p);
    } else {
      NotPrefix(k.v6, k.v4, c);
      assert Gives(k, a, k.v4 + c, p);
    }
  }

  // ---- One ADD

  /** An ADD for container, its truncated ID; "" is no subnet, and alive tells
      which namespaces exist when it runs. */
  datatype Add = Add(container: string, netns: string, v6: string, v4: string, addressed: bool, alive: string -> bool)

  /** What is recorded for a container. */
  datatype Entry = Entry(netns: string, v6: Option<string>, v4: Option<string>)

  function Lookup(a: Annotations, key: string): Option<string> {
    if key in a then Some(a[key]) else None
  }

  function EntryOf(k: Keys, a: Annotations, c: string): Option<Entry> {
    if Recorded(k, a, c) then Some(Entry(a[k.netns + c], Lookup(a, k.v6 + c), Lookup(a, k.v4 + c))) else None
  }

  function Update(value: string, before: Option<string>): Option<string> {
    if value != "" then Some(value) else before
  }

  function Joined(e: Option<Entry>, add: Add): Entry {
    Entry(add.netns,
          Update(add.v6, if e.Some? then e.value.v6 else None),
          Update(add.v4, if e.Some? then e.value.v4 else None))
  }

  /** The reference: the container's entry is updated, and entries whose namespace
      is gone are dropped. */
  function After(e: Option<Entry>, c: string, add: Add): Option<Entry> {
    var joined := if c == add.container then Some(Joined(e, add)) else e;
    if joined.Some? && add.alive(joined.value.netns) then joined else None
  }

  function Put(a: Annotations, key: string, value: string): Annotations {
    if value == "" then a else a[key := value]
  }

  function Record(k: Keys, a: Annotations, add: Add): Annotations {
    var c := add.container;
    var m := Put(Put(a[k.netns + c := add.netns], k.v6 + c, add.v6), k.v4 + c, add.v4);
    if add.addressed then m - {k.none} else m[k.none := "true"]
  }

  lemma NoneApart(k: Keys, c: string)
    requires Apart(k)
    ensures k.netns + c != k.none && k.v6 + c != k.none && k.v4 + c != k.none
  {
    Suffixes(k.netns, c);
    Suffixes(k.v6, c);
    Suffixes(k.v4, c);
  }

  /** Recording changes one container's entry. */
  lemma RecordsEntry(k: Keys, a: Annotations, add: Add, c: string)
    requires Apart(k) && Valid(k, a)
    ensures EntryOf(k, Record(k, a, add), c) ==
            if c == add.container then Some(Joined(EntryOf(k, a, c), add)) else EntryOf(k, a, c)
  {
    var m := a[k.netns + add.container := add.netns];
    var n := Put(m, k.v6 + add.container, add.v6);
    NoneApart(k, c);
    KeysDiffer(k, c, add.container);
    KeysDiffer(k, add.container, c);
    assert EntryOf(k, n, c) ==
           if c == add.container then Some(Entry(add.netns, Update(add.v6, Lookup(a, k.v6 + c)), Lookup(a, k.v4 + c)))
           else EntryOf(k, a, c);
  }

  lemma RecordValid(k: Keys, a: Annotations, add: Add)
    requires Apart(k) && Valid(k, a)
    ensures Valid(k, Record(k, a, add))
  {
    var m := Record(k, a, add);
    forall c | k.v6 + c in m || k.v4 + c in m
      ensures Recorded(k, m, c)
    {
      NoneApart(k, c);
      KeysDiffer(k, c, add.container);
      KeysDiffer(k, add.container, c);
    }
  }

  lemma PrunedEntry(k: Keys, a: Annotations, alive: string -> bool, r: Annotations, c: string)
    requires Apart(k) && Valid(k, a) && Pruned(k, a, alive, r)
    ensures EntryOf(k, r, c) == if Live(k, a, alive, c) then EntryOf(k, a, c) else None
    ensures Live(k, a, alive, c) || (k.v6 + c !in r && k.v4 + c !in r)
  {
    if Live(k, a, alive, c) {
      LiveKept(k, a, alive, c);
    } else if Recorded(k, a, c) {
      assert Doomed(k, a, alive, c) && KeyFor(k, c, k.netns + c) && KeyFor(k, c, k.v6 + c) && KeyFor(k, c, k.v4 + c);
    }
  }

  /** A prefix an entry gives rise to. */
  predicate EntryGives(e: Option<Entry>, p: string) {
    e.Some? && (e.value.v6 == Some(p) || (e.value.v4.Some? && p == e.value.v4.value + "/32"))
  }

  /** The advertisement is marked as without addressing exactly when its last ADD
      brought none. */
  predicate Marked(k: Keys, r: Annotations, addressed: bool) {
    Lookup(r, k.none) == if addressed then None else Some("true")
  }

  lemma MarkedAfter(k: Keys, a: Annotations, add: Add, r: Annotations)
    requires Apart(k) && Pruned(k, Record(k, a, add), add.alive, r)
    ensures Marked(k, r, add.addressed)
  {
    forall c
      ensures !KeyFor(k, c, k.none)
    {
      NoneApart(k, c);
    }
  }

  /** The annotations and prefixes an ADD leaves, told container by container: the
      reference step, and exactly the prefixes of the entries it keeps. */
  ghost predicate Publishes(k: Keys, a: Annotations, add: Add, r: Annotations, prefixes: seq<string>) {
    && Valid(k, r) && Ascending(prefixes)
    && (forall c :: EntryOf(k, r, c) == After(EntryOf(k, a, c), c, add))
    && Marked(k, r, add.addressed)
    && forall p :: p in prefixes <==> exists c :: EntryGives(EntryOf(k, r, c), p)
  }

  lemma EntriesAfter(k: Keys, a: Annotations, add: Add, r: Annotations)
    requires Apart(k) && Valid(k, a) && Pruned(k, Record(k, a, add), add.alive, r)
    ensures Valid(k, r)
    ensures forall c :: EntryOf(k, r, c) == After(EntryOf(k, a, c), c, add)
  {
    RecordValid(k, a, add);
    forall c
      ensures EntryOf(k, r, c) == After(EntryOf(k, a, c), c, add)
      ensures (k.v6 + c in r || k.v4 + c in r) ==> Recorded(k, r, c)
    {
      RecordsEntry(k, a, add, c);
      PrunedEntry(k, Record(k, a, add), add.alive, r, c);
    }
  }

  lemma PrefixesOfEntries(k: Keys, r: Annotations, p: string)
    requires Apart(k) && Valid(k, r)
    ensures (exists key :: Gives(k, r, key, p)) <==> exists c :: EntryGives(EntryOf(k, r, c), p)
  {
    if exists key :: Gives(k, r, key, p) {
      var key :| Gives(k, r, key, p);
      GivesIsHeld(k, r, key, p);
      var c :| Holds(k, r, c, p);
      assert EntryGives(EntryOf(k, r, c), p);
    }
    if exists c :: EntryGives(EntryOf(k, r, c), p) {
      var c :| EntryGives(EntryOf(k, r, c), p);
      assert Holds(k, r, c, p);
      HeldIsGiven(k, r, c, p);
    }
  }

  /** The mutation publishBGPState applies to the advertisement. */
  method Publish(k: Keys, a: Annotations, add: Add) returns (r: Annotations, prefixes: seq<string>)
    requires Apart(k) && Valid(k, a)
    ensures Publishes(k, a, add, r, prefixes)
  {
    r := PruneDead(k, Record(k, a, add), add.alive);
    prefixes := AllAdvertisedPrefixes(k, r);
    EntriesAfter(k, a, add, r);
    MarkedAfter(k, a, add, r);
    forall p
      ensures p in prefixes <==> exists c :: EntryGives(EntryOf(k, r, c), p)
    {
      PrefixesOfEntries(k, r, p);
    }
  }

  // ---- A history of ADDs

  ghost predicate History(k: Keys, states: seq<Annotations>, adds: seq<Add>, lists: seq<seq<string>>) {
    && |states| == |adds| + 1 == |lists| + 1 && states[0] == map[]
    && forall i | 0 <= i < |adds| :: Publishes(k, states[i], adds[i], states[i + 1], lists[i])
  }

  /** What the reference keeps of a container after a history. */
  ghost function Reference(adds: seq<Add>, c: string): Option<Entry> {
    if adds == [] then None else After(Reference(adds[..|adds| - 1], c), c, adds[|adds| - 1])
  }

  lemma {:induction false} HistoryRefines(
    k: Keys, states: seq<Annotations>, adds: seq<Add>, lists: seq<seq<string>>, i: nat, c: string)
    requires History(k, states, adds, lists) && i < |states|
    ensures EntryOf(k, states[i], c) == Reference(adds[..i], c)
  {
    if i > 0 {
      HistoryRefines(k, states, adds, lists, i - 1, c);
      assert Publishes(k, states[i - 1], adds[i - 1], states[i], lists[i - 1]);
      assert adds[..i][..i - 1] == adds[..i - 1];
    }
  }

  /** The reference keeps the container, and it has the prefix. */
  ghost predicate Keeps(adds: seq<Add>, c: string, p: string) {
    EntryGives(Reference(adds, c), p)
  }

  ghost predicate KeptAlive(adds: seq<Add>, c: string, alive: string -> bool) {
    Reference(adds, c).Some? ==> alive(Reference(adds, c).value.netns)
  }

  /** After every ADD of every history the advertised prefixes are sorted, without
      repeats, and exactly those of the reference's containers, all of them live
      at that ADD. */
  lemma AdvertisedExactly(
    k: Keys, states: seq<Annotations>, adds: seq<Add>, lists: seq<seq<string>>, i: nat, done: seq<Add>)
    requires History(k, states, adds, lists) && i < |adds| && done == adds[..i + 1]
    ensures Ascending(lists[i])
    ensures forall p :: p in lists[i] <==> exists c :: Keeps(done, c, p)
    ensures forall c :: KeptAlive(done, c, adds[i].alive)
  {
    var r := states[i + 1];
    assert Publishes(k, states[i], adds[i], r, lists[i]);
    forall c
      ensures KeptAlive(done, c, adds[i].alive)
      ensures forall p :: EntryGives(EntryOf(k, r, c), p) <==> Keeps(done, c, p)
    {
      HistoryRefines(k, states, adds, lists, i + 1, c);
      assert done[|done| - 1] == adds[i];
    }
    forall p
      ensures p in lists[i] <==> exists c :: Keeps(done, c, p)
    {
      if p in lists[i] {
        var c :| EntryGives(EntryOf(k, r, c), p);
        assert Keeps(done, c, p);
      }
      if exists c :: Keeps(done, c, p) {
        var c :| Keeps(done, c, p);
        assert EntryGives(EntryOf(k, r, c), p);
      }
    }
  }

  /** The list does not depend on the order the annotations are walked in. */
  lemma PublishDetermined(k: Keys, a: Annotations, add: Add,
                          r: Annotations, prefixes: seq<string>, r': Annotations, prefixes': seq<string>)
    requires Publishes(k, a, add, r, prefixes) && Publishes(k, a, add, r', prefixes')
    ensures prefixes == prefixes'
  {
    forall p
      ensures p in prefixes <==> p in prefixes'
    {
      if p in prefixes {
        var c :| EntryGives(EntryOf(k, r, c), p);
        assert EntryGives(EntryOf(k, r', c), p);
      }
      if p in prefixes' {
        var c :| EntryGives(EntryOf(k, r', c), p);
        assert EntryGives(EntryOf(k, r, c), p);
      }
    }
    AscendingUnique(prefixes, prefixes');
  }
}
