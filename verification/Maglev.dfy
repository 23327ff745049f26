/** The Maglev consistent-hash table (internal/maglev/table.go). A backend is its
    key; its offset and skip stand for the two hashes of the key. */
module Maglev {
  import opened Common
  import opened Primes
  import opened SortedStrings

  // ---- A prime size makes every probe sequence a permutation

  datatype Preference = Preference(offset: nat, skip: nat)

  ghost predicate Fits(b: Preference, size: nat) {
    b.offset < size && 0 < b.skip < size
  }

  /** The slot of a backend's j-th preference. */
  function Slot(b: Preference, j: nat, size: nat): (s: nat)
    requires size > 0
    ensures s < size
  {
    (b.offset + j * b.skip) % size
  }

  /** The arithmetic stays below 2^64 for any table of up to 2^32 slots. */
  lemma SlotDoesNotWrap(b: Preference, j: nat, size: nat)
    requires Fits(b, size) && j < size && size <= 0x1_0000_0000
    ensures b.offset + j * b.skip < 0x1_0000_0000_0000_0000
  {
    Scale(j, b.skip, size - 1);
    Scale(size - 1, j, size - 1);
    Scale(size - 1, size - 1, 0xFFFF_FFFF);
    Scale(0xFFFF_FFFF, size - 1, 0xFFFF_FFFF);
  }

  lemma SlotsDiffer(b: Preference, i: nat, j: nat, size: nat)
    requires Prime(size) && Fits(b, size) && i < j < size
    ensures Slot(b, i, size) != Slot(b, j, size)
  {
    var x, y := b.offset + i * b.skip, b.offset + j * b.skip;
    NoSmallMultiple(size, j - i);
    if x % size == y % size {
      assert y - x == b.skip * (j - i);
      assert size * (y / size - x / size) == y - x;
      Euclid(size, b.skip, j - i);
    }
  }

  ghost function Tried(b: Preference, k: nat, size: nat): set<nat>
    requires size > 0
  {
    if k == 0 then {} else Tried(b, k - 1, size) + {Slot(b, k - 1, size)}
  }

  lemma {:induction false} TriedIs(b: Preference, k: nat, size: nat, s: nat)
    requires size > 0
    ensures s in Tried(b, k, size) <==> exists j: nat :: j < k && Slot(b, j, size) == s
  {
    if k > 0 {
      TriedIs(b, k - 1, size, s);
      if Slot(b, k - 1, size) == s {
        assert s in Tried(b, k, size);
      }
    }
  }

  lemma {:induction false} TriedCount(b: Preference, k: nat, size: nat)
    requires Prime(size) && Fits(b, size) && k <= size
    ensures |Tried(b, k, size)| == k && forall s | s in Tried(b, k, size) :: s < size
  {
    if k > 0 {
      TriedCount(b, k - 1, size);
      var s := Slot(b, k - 1, size);
      TriedIs(b, k - 1, size, s);
      if s in Tried(b, k - 1, size) {
        var j: nat :| j < k - 1 && Slot(b, j, size) == s;
        SlotsDiffer(b, j, k - 1, size);
      }
    }
  }

  ghost function Below(n: nat): set<nat> {
    if n == 0 then {} else Below(n - 1) + {n - 1}
  }

  lemma {:induction false} BelowCount(n: nat)
    ensures |Below(n)| == n && forall s: nat :: s in Below(n) <==> s < n
  {
    if n > 0 {
      BelowCount(n - 1);
    }
  }

  lemma {:induction false} SubsetCount(a: set<nat>, b: set<nat>)
    requires a <= b
    ensures |a| <= |b| && (|a| == |b| ==> a == b)
  {
    if a != {} {
      var x :| x in a;
      SubsetCount(a - {x}, b - {x});
    } else if |b| == 0 {
      assert b == {};
    }
  }

  /** Every slot is one of a backend's first size preferences. */
  lemma EverySlotTried(b: Preference, size: nat, s: nat) returns (j: nat)
    requires Prime(size) && Fits(b, size) && s < size
    ensures j < size && Slot(b, j, size) == s
  {
    TriedCount(b, size, size);
    BelowCount(size);
    SubsetCount(Tried(b, size, size), Below(size));
    TriedIs(b, size, size, s);
    j :| j < size && Slot(b, j, size) == s;
  }

  // ---- Filling

  /** entries holds the index of each slot's backend, next each backend's next
      preference to try. */
  datatype Fill = Fill(entries: seq<Option<nat>>, next: seq<nat>)

  /** The first preference from j on whose slot is free, or size when there is
      none. */
  function Probe(entries: seq<Option<nat>>, b: Preference, j: nat): (r: nat)
    requires |entries| > 0
    ensures r <= |entries| && (r >= j || r == |entries|)
    ensures r < |entries| ==> entries[Slot(b, r, |entries|)].None?
    decreases |entries| - j
  {
    if j >= |entries| then |entries|
    else if entries[Slot(b, j, |entries|)].None? then j
    else Probe(entries, b, j + 1)
  }

  /** Backend i claims its next preferred free slot. */
  function Claim(f: Fill, i: nat, b: Preference): (g: Fill)
    requires |f.entries| > 0 && i < |f.next|
    ensures |g.entries| == |f.entries| && |g.next| == |f.next|
  {
    var j := Probe(f.entries, b, f.next[i]);
    if j >= |f.entries| then f
    else Fill(f.entries[Slot(b, j, |f.entries|) := Some(i)], f.next[i := j + 1])
  }

  /** The table after k claims, the backends taking turns. */
  function FillTo(bs: seq<Preference>, size: nat, k: nat): (f: Fill)
    requires |bs| > 0 && size > 0
    ensures |f.entries| == size && |f.next| == |bs|
  {
    if k == 0 then Fill(seq(size, _ => None), seq(|bs|, _ => 0))
    else
      var i := (k - 1) % |bs|;
      Claim(FillTo(bs, size, k - 1), i, bs[i])
  }

  // ---- Counting slots

  function Count(entries: seq<Option<nat>>, x: Option<nat>): nat {
    if entries == [] then 0
    else Count(entries[..|entries| - 1], x) + if entries[|entries| - 1] == x then 1 else 0
  }

  function One(b: bool): nat {
    if b then 1 else 0
  }

  lemma {:induction false} CountUpdate(entries: seq<Option<nat>>, s: nat, v: Option<nat>, x: Option<nat>)
    requires s < |entries|
    ensures Count(entries[s := v], x) + One(entries[s] == x) == Count(entries, x) + One(v == x)
  {
    var n := |entries| - 1;
    var init := entries[..n];
    if s == n {
      assert entries[s := v][..n] == init;
    } else {
      CountUpdate(init, s, v, x);
      assert entries[s := v][..n] == init[s := v];
    }
  }

  lemma {:induction false} CountNone(entries: seq<Option<nat>>, x: Option<nat>)
    ensures Count(entries, x) == 0 <==> x !in entries
  {
    if entries != [] {
      var init, last := entries[..|entries| - 1], entries[|entries| - 1];
      CountNone(init, x);
      assert entries == init + [last];
    }
  }

  lemma {:induction false} CountAll(entries: seq<Option<nat>>, x: Option<nat>)
    requires forall i | 0 <= i < |entries| :: entries[i] == x
    ensures Count(entries, x) == |entries|
  {
    if entries != [] {
      CountAll(entries[..|entries| - 1], x);
    }
  }

  /** How many of the first k turns are backend i's. */
  function Share(k: nat, n: nat, i: nat): nat
    requires n > 0
  {
    k / n + One(i < k % n)
  }

  lemma ShareNext(k: nat, n: nat, i: nat)
    requires i < n
    ensures Share(k + 1, n, i) == Share(k, n, i) + One(i == k % n)
  {
    var q, r := k / n, k % n;
    assert k == n * q + r;
    if r + 1 < n {
      QuotientUnique(k + 1, n, q, r + 1);
    } else {
      assert n * (q + 1) == n * q + n;
      QuotientUnique(k + 1, n, q + 1, 0);
    }
  }

  /** What k claims leave: k slots taken, in equal shares, and every preference
      passed over is taken. */
  ghost predicate Filled(bs: seq<Preference>, size: nat, k: nat)
    requires |bs| > 0 && size > 0
  {
    var f := FillTo(bs, size, k);
    && Count(f.entries, None) + k == size
    && (forall i | 0 <= i < |bs| :: Count(f.entries, Some(i)) == Share(k, |bs|, i))
    && (forall i | 0 <= i < |bs| :: Passed(f, bs[i], f.next[i]))
  }

  ghost predicate Passed(f: Fill, b: Preference, next: nat)
    requires |f.entries| > 0
  {
    next <= |f.entries| && forall j: nat | j < next :: Taken(f.entries, b, j)
  }

  predicate Taken(entries: seq<Option<nat>>, b: Preference, j: nat)
    requires |entries| > 0
  {
    entries[Slot(b, j, |entries|)].Some?
  }

  lemma {:induction false} ProbePasses(entries: seq<Option<nat>>, b: Preference, j: nat, h: nat)
    requires |entries| > 0 && j <= h < Probe(entries, b, j)
    ensures Taken(entries, b, h)
    decreases |entries| - j
  {
    if j < h {
      ProbePasses(entries, b, j + 1, h);
    }
  }

  lemma FreePreference(entries: seq<Option<nat>>, b: Preference) returns (j: nat)
    requires Prime(|entries|) && Fits(b, |entries|) && None in entries
    ensures j < |entries| && !Taken(entries, b, j)
  {
    var s: nat :| s < |entries| && entries[s] == None;
    j := EverySlotTried(b, |entries|, s);
  }

  /** While a slot is free, a backend's probe finds one. */
  lemma ProbeFinds(f: Fill, b: Preference, next: nat)
    requires Prime(|f.entries|) && Fits(b, |f.entries|) && Passed(f, b, next) && None in f.entries
    ensures Probe(f.entries, b, next) < |f.entries|
  {
    var j := FreePreference(f.entries, b);
    assert next <= j;
    if Probe(f.entries, b, next) == |f.entries| {
      ProbePasses(f.entries, b, next, j);
    }
  }

  ghost predicate AllFit(bs: seq<Preference>, size: nat) {
    forall i | 0 <= i < |bs| :: Fits(bs[i], size)
  }

  /** A claim keeps every backend's passed preferences taken. */
  lemma ClaimPasses(f: Fill, i: nat, b: Preference, c: Preference, next: nat)
    requires |f.entries| > 0 && i < |f.next| && Passed(f, c, next)
    ensures Passed(Claim(f, i, b), c, next)
  {
    var g := Claim(f, i, b);
    forall j: nat | j < next
      ensures Taken(g.entries, c, j)
    {
      assert Taken(f.entries, c, j);
    }
  }

  lemma ClaimPassesOwn(f: Fill, i: nat, b: Preference)
    requires |f.entries| > 0 && i < |f.next| && Passed(f, b, f.next[i]) && Probe(f.entries, b, f.next[i]) < |f.entries|
    ensures var g := Claim(f, i, b); Passed(g, b, g.next[i])
  {
    var g, next := Claim(f, i, b), f.next[i];
    var j := Probe(f.entries, b, next);
    forall h: nat | h < j + 1
      ensures Taken(g.entries, b, h)
    {
      if h < next {
        assert Taken(f.entries, b, h);
      } else if h < j {
        ProbePasses(f.entries, b, next, h);
      }
    }
  }

  lemma ClaimCounts(f: Fill, i: nat, b: Preference, x: Option<nat>)
    requires |f.entries| > 0 && i < |f.next| && Probe(f.entries, b, f.next[i]) < |f.entries|
    ensures Count(Claim(f, i, b).entries, x) + One(x.None?) == Count(f.entries, x) + One(x == Some(i))
  {
    CountUpdate(f.entries, Slot(b, Probe(f.entries, b, f.next[i]), |f.entries|), Some(i), x);
  }

  lemma FilledNext(bs: seq<Preference>, size: nat, k: nat)
    requires |bs| > 0 && Prime(size) && AllFit(bs, size) && k < size && Filled(bs, size, k)
    ensures Filled(bs, size, k + 1)
  {
    var f, i := FillTo(bs, size, k), k % |bs|;
    var g := Claim(f, i, bs[i]);
    assert FillTo(bs, size, k + 1) == g;
    CountNone(f.entries, None);
    ProbeFinds(f, bs[i], f.next[i]);
    ClaimCounts(f, i, bs[i], None);
    forall h | 0 <= h < |bs|
      ensures Count(g.entries, Some(h)) == Share(k + 1, |bs|, h) && Passed(g, bs[h], g.next[h])
    {
      ClaimCounts(f, i, bs[i], Some(h));
      ShareNext(k, |bs|, h);
      if h == i {
        ClaimPassesOwn(f, i, bs[i]);
      } else {
        ClaimPasses(f, i, bs[i], bs[h], f.next[h]);
      }
    }
  }

  lemma {:induction false} FilledTo(bs: seq<Preference>, size: nat, k: nat)
    requires |bs| > 0 && Prime(size) && AllFit(bs, size) && k <= size
    ensures Filled(bs, size, k)
  {
    if k > 0 {
      FilledTo(bs, size, k - 1);
      FilledNext(bs, size, k - 1);
    } else {
      var f := FillTo(bs, size, 0);
      CountAll(f.entries, None);
      forall i | 0 <= i < |bs|
        ensures Count(f.entries, Some(i)) == Share(0, |bs|, i)
      {
        CountNone(f.entries, Some(i));
      }
    }
  }

  /** The finished table: every slot is assigned, and any two backends' slots
      differ by at most one, the first size % n of them having the extra one. */
  lemma TableBalanced(bs: seq<Preference>, size: nat)
    requires |bs| > 0 && Prime(size) && AllFit(bs, size)
    ensures var entries := FillTo(bs, size, size).entries;
            && (forall s | 0 <= s < size :: entries[s].Some?)
            && forall i | 0 <= i < |bs| :: Count(entries, Some(i)) == size / |bs| + One(i < size % |bs|)
  {
    FilledTo(bs, size, size);
    CountNone(FillTo(bs, size, size).entries, None);
  }

  // ---- The code

  /** The arrays hold the table f. */
  ghost predicate Mirrors(f: Fill, claimed: seq<bool>, entries: seq<nat>, next: seq<nat>) {
    && |claimed| == |entries| == |f.entries| && next == f.next
    && forall s | 0 <= s < |claimed| :: if claimed[s] then f.entries[s] == Some(entries[s]) else f.entries[s].None?
  }

  /** The innermost loop: tries preferences until a slot is free. */
  method TryPreferences(claimed: array<bool>, b: Preference, next: nat, ghost f: Fill) returns (slot: nat, after: nat)
    requires claimed.Length == |f.entries| > 0
    requires forall s | 0 <= s < claimed.Length :: claimed[s] <==> f.entries[s].Some?
    requires Probe(f.entries, b, next) < claimed.Length
    ensures after == Probe(f.entries, b, next) + 1 && slot == Slot(b, after - 1, claimed.Length)
  {
    after := next;
    while true
      invariant after <= Probe(f.entries, b, next) == Probe(f.entries, b, after) < claimed.Length
      decreases claimed.Length - after
    {
      slot := (b.offset + after * b.skip) % claimed.Length;
      assert slot == Slot(b, after, claimed.Length);
      after := after + 1;
      if !claimed[slot] {
        break;
      }
    }
  }

  /** Backend i claims a slot, in place. */
  method ClaimSlot(
    bs: seq<Preference>, i: nat, claimed: array<bool>, entries: array<nat>, next: array<nat>, ghost k: nat)
    requires claimed.Length == entries.Length && next.Length == |bs| > 0 && next != entries
    requires Prime(claimed.Length) && AllFit(bs, claimed.Length) && k < claimed.Length && i == k % |bs|
    requires Mirrors(FillTo(bs, claimed.Length, k), claimed[..], entries[..], next[..])
    modifies claimed, entries, next
    ensures Mirrors(FillTo(bs, claimed.Length, k + 1), claimed[..], entries[..], next[..])
  {
    ghost var f := FillTo(bs, claimed.Length, k);
    FilledTo(bs, claimed.Length, k);
    CountNone(f.entries, None);
    ProbeFinds(f, bs[i], f.next[i]);
    assert forall s | 0 <= s < claimed.Length :: claimed[..][s] == claimed[s];
    var slot, after := TryPreferences(claimed, bs[i], next[i], f);
    next[i] := after;
    claimed[slot] := true;
    entries[slot] := i;
    assert FillTo(bs, claimed.Length, k + 1) == Claim(f, i, bs[i]);
  }

  lemma TurnOf(base: nat, i: nat, n: nat)
    requires n > 0 && base % n == 0 && i <= n
    ensures i < n ==> (base + i) % n == i
    ensures (base + n) % n == 0
  {
    assert base == n * (base / n) + 0;
    if i < n {
      QuotientUnique(base + i, n, base / n, i);
    }
    assert n * (base / n + 1) == base + n;
    QuotientUnique(base + n, n, base / n + 1, 0);
  }

  /** One turn of every backend, or of those before the table is full. */
  method FillRound(bs: seq<Preference>, claimed: array<bool>, entries: array<nat>, next: array<nat>, base: nat)
    returns (filled: nat)
    requires claimed.Length == entries.Length && next.Length == |bs| > 0 && next != entries
    requires Prime(claimed.Length) && AllFit(bs, claimed.Length) && base < claimed.Length && base % |bs| == 0
    requires Mirrors(FillTo(bs, claimed.Length, base), claimed[..], entries[..], next[..])
    modifies claimed, entries, next
    ensures base < filled <= claimed.Length && (filled < claimed.Length ==> filled % |bs| == 0)
    ensures Mirrors(FillTo(bs, claimed.Length, filled), claimed[..], entries[..], next[..])
  {
    filled := base;
    for i := 0 to |bs|
      invariant filled == base + i < claimed.Length
      invariant Mirrors(FillTo(bs, claimed.Length, filled), claimed[..], entries[..], next[..])
    {
      TurnOf(base, i, |bs|);
      ClaimSlot(bs, i, claimed, entries, next, filled);
      filled := filled + 1;
      if filled == claimed.Length {
        return;
      }
    }
    TurnOf(base, 0, |bs|);
  }

  method FillTable(bs: seq<Preference>, size: nat) returns (entries: array<nat>)
    requires |bs| > 0 && Prime(size) && AllFit(bs, size)
    ensures fresh(entries) && entries.Length == size
    ensures forall s | 0 <= s < size :: FillTo(bs, size, size).entries[s] == Some(entries[s])
  {
    var n := |bs|;
    var next := new nat[n](_ => 0);
    var claimed := new bool[size](_ => false);
    entries := new nat[size](_ => 0);
    var filled := 0;
    assert next[..] == FillTo(bs, size, 0).next;
    while filled < size
      invariant filled <= size && (filled < size ==> filled % n == 0)
      invariant Mirrors(FillTo(bs, size, filled), claimed[..], entries[..], next[..])
      decreases size - filled
    {
      filled := FillRound(bs, claimed, entries, next, filled);
    }
    TableBalanced(bs, size);
  }

  /** The two hashes of a key. */
  datatype Hashes = Hashes(offset: string -> nat, skip: string -> nat)

  function PreferenceOf(h: Hashes, key: string, size: nat): (b: Preference)
    requires size >= 2
    ensures Fits(b, size)
  {
    Preference(h.offset(key) % size, h.skip(key) % (size - 1) + 1)
  }

  function Preferences(h: Hashes, keys: seq<string>, size: nat): (bs: seq<Preference>)
    requires size >= 2
    ensures |bs| == |keys| && AllFit(bs, size)
  {
    seq(|keys|, i requires 0 <= i < |keys| => PreferenceOf(h, keys[i], size))
  }

  datatype Table = Table(keys: seq<string>, entries: seq<nat>)

  /** A table depends on its sorted keys alone. */
  ghost predicate IsTable(h: Hashes, t: Table, size: nat) {
    && Ascending(t.keys) && t.keys != [] && size >= 2 && |t.entries| == size
    && forall s | 0 <= s < size :: FillTo(Preferences(h, t.keys, size), size, size).entries[s] == Some(t.entries[s])
  }

  /** Refuses no backends, too few slots, a size that is not prime and repeated
      keys, and nothing else. */
  method New(h: Hashes, keys: seq<string>, size: int) returns (t: Option<Table>)
    ensures t.Some? <==> keys != [] && size >= |keys| && Prime(size) && NoRepeats(keys)
    ensures t.Some? ==> IsTable(h, t.value, size) && multiset(t.value.keys) == multiset(keys)
  {
    if |keys| == 0 || size < |keys| {
      return None;
    }
    var prime := IsPrime(size);
    if !prime {
      return None;
    }
    var sorted := Sort(keys);
    for i := 1 to |sorted|
      invariant forall k | 0 < k < i :: sorted[k] != sorted[k - 1]
    {
      if sorted[i] == sorted[i - 1] {
        RepeatsKept(sorted, keys);
        return None;
      }
    }
    RepeatsAdjacent(sorted);
    AscendingNoRepeats(sorted);
    RepeatsKept(sorted, keys);
    assert sorted != [] by {
      assert |multiset(sorted)| == |multiset(keys)|;
    }
    var entries := FillTable(Preferences(h, sorted, size), size);
    return Some(Table(sorted, entries[..]));
  }

  lemma RepeatsKept(s: seq<string>, t: seq<string>)
    requires multiset(s) == multiset(t)
    ensures NoRepeats(s) <==> NoRepeats(t)
  {
    MultisetRepeats(s);
    MultisetRepeats(t);
  }

  lemma {:induction false} MultisetRepeats(s: seq<string>)
    ensures NoRepeats(s) <==> forall x | x in multiset(s) :: multiset(s)[x] == 1
  {
    if s != [] {
      var init, last := s[..|s| - 1], s[|s| - 1];
      MultisetRepeats(init);
      assert s == init + [last];
      if NoRepeats(s) {
        assert NoRepeats(init) && last !in init;
      }
      if forall x | x in multiset(s) :: multiset(s)[x] == 1 {
        forall x | x in multiset(init)
          ensures multiset(init)[x] == 1
        {
          assert x in multiset(s);
        }
        assert multiset(s)[last] == 1;
        assert last !in multiset(init);
      }
    }
  }

  // ---- The table from the hashes

  /** The slot claimed in turn k. */
  ghost function SlotOf(bs: seq<Preference>, size: nat, k: nat): (s: nat)
    requires |bs| > 0 && size > 0
    ensures s < size
  {
    var f, i := FillTo(bs, size, k), k % |bs|;
    Slot(bs[i], Probe(f.entries, bs[i], f.next[i]), size)
  }

  ghost function Slots(bs: seq<Preference>, size: nat, k: nat): (s: seq<nat>)
    requires |bs| > 0 && size > 0
    ensures |s| == k
  {
    if k == 0 then [] else Slots(bs, size, k - 1) + [SlotOf(bs, size, k - 1)]
  }

  /** While there is a turn left, its backend finds a free slot. */
  lemma TurnFinds(bs: seq<Preference>, size: nat, k: nat)
    requires |bs| > 0 && Prime(size) && AllFit(bs, size) && k < size
    ensures var f, b := FillTo(bs, size, k), bs[k % |bs|];
            Probe(f.entries, b, f.next[k % |bs|]) < size && f.entries[SlotOf(bs, size, k)].None?
  {
    var f := FillTo(bs, size, k);
    FilledTo(bs, size, k);
    CountNone(f.entries, None);
    ProbeFinds(f, bs[k % |bs|], f.next[k % |bs|]);
  }

  /** The slots taken are slots, and each is its turn's. */
  ghost predicate InTurns(entries: seq<Option<nat>>, slots: seq<nat>, n: nat)
    requires n > 0
  {
    && (forall s: nat | s < |entries| :: entries[s].Some? <==> s in slots)
    && forall t | 0 <= t < |slots| :: slots[t] < |entries| && entries[slots[t]] == Some(t % n)
  }

  lemma OneMoreTurn(entries: seq<Option<nat>>, slots: seq<nat>, n: nat, s: nat)
    requires n > 0 && InTurns(entries, slots, n) && s < |entries| && entries[s].None?
    ensures InTurns(entries[s := Some(|slots| % n)], slots + [s], n)
  {
  }

  lemma ClaimedInTurn(bs: seq<Preference>, size: nat, k: nat)
    requires |bs| > 0 && Prime(size) && AllFit(bs, size) && k < size
    ensures FillTo(bs, size, k + 1).entries == FillTo(bs, size, k).entries[SlotOf(bs, size, k) := Some(k % |bs|)]
  {
    TurnFinds(bs, size, k);
  }

  lemma TakenNext(bs: seq<Preference>, size: nat, k: nat)
    requires |bs| > 0 && Prime(size) && AllFit(bs, size) && k < size
    requires InTurns(FillTo(bs, size, k).entries, Slots(bs, size, k), |bs|)
    ensures InTurns(FillTo(bs, size, k + 1).entries, Slots(bs, size, k + 1), |bs|)
  {
    TurnFinds(bs, size, k);
    ClaimedInTurn(bs, size, k);
    OneMoreTurn(FillTo(bs, size, k).entries, Slots(bs, size, k), |bs|, SlotOf(bs, size, k));
  }

  /** The slots taken after k turns are the ones claimed in them. */
  lemma {:induction false} TakenInTurns(bs: seq<Preference>, size: nat, k: nat)
    requires |bs| > 0 && Prime(size) && AllFit(bs, size) && k <= size
    ensures InTurns(FillTo(bs, size, k).entries, Slots(bs, size, k), |bs|)
  {
    if k > 0 {
      TakenInTurns(bs, size, k - 1);
      TakenNext(bs, size, k - 1);
    }
  }

  /** What a backend passes over in its turn went to earlier ones. */
  lemma PassedInTurn(bs: seq<Preference>, size: nat, k: nat, g: nat)
    requires |bs| > 0 && Prime(size) && AllFit(bs, size) && k < size
    requires var f, i := FillTo(bs, size, k), k % |bs|; g < Probe(f.entries, bs[i], f.next[i])
    ensures Slot(bs[k % |bs|], g, size) in Slots(bs, size, k)
  {
    var f, i := FillTo(bs, size, k), k % |bs|;
    FilledTo(bs, size, k);
    assert Passed(f, bs[i], f.next[i]);
    if g >= f.next[i] {
      ProbePasses(f.entries, bs[i], f.next[i], g);
    }
    assert Taken(f.entries, bs[i], g);
    TakenInTurns(bs, size, k);
  }

  /** A key's j-th preference. */
  function Prefers(h: Hashes, key: string, size: nat, j: nat): nat
    requires size >= 2
  {
    (h.offset(key) % size + j * (h.skip(key) % (size - 1) + 1)) % size
  }

  lemma PrefersSlot(h: Hashes, key: string, size: nat, j: nat)
    requires size >= 2
    ensures Prefers(h, key, size, j) == Slot(PreferenceOf(h, key, size), j, size)
  {
  }

  /** The key takes its j-th preference, and earlier turns took those before it. */
  ghost predicate TakesPreference(h: Hashes, key: string, size: nat, slots: seq<nat>, k: nat, j: nat)
    requires size >= 2 && k < |slots|
  {
    slots[k] == Prefers(h, key, size, j) && forall g: nat | g < j :: Prefers(h, key, size, g) in slots[..k]
  }

  /** In its turn the key takes the first slot it prefers of those left. */
  ghost predicate Takes(h: Hashes, key: string, size: nat, slots: seq<nat>, k: nat)
    requires size >= 2 && k < |slots|
  {
    slots[k] !in slots[..k] && exists j: nat :: TakesPreference(h, key, size, slots, k, j)
  }

  lemma {:induction false} SlotsPrefix(bs: seq<Preference>, size: nat, k: nat, n: nat)
    requires |bs| > 0 && size > 0 && k <= n
    ensures Slots(bs, size, n)[..k] == Slots(bs, size, k)
    decreases n
  {
    if k < n {
      SlotsPrefix(bs, size, k, n - 1);
      assert Slots(bs, size, n)[..k] == Slots(bs, size, n - 1)[..k];
    }
  }

  lemma TurnTakes(h: Hashes, keys: seq<string>, size: nat, k: nat)
    requires keys != [] && Prime(size) && size >= 2 && k < size
    ensures Takes(h, keys[k % |keys|], size, Slots(Preferences(h, keys, size), size, size), k)
  {
    var bs, i := Preferences(h, keys, size), k % |keys|;
    var slots, f := Slots(bs, size, size), FillTo(bs, size, k);
    var j := Probe(f.entries, bs[i], f.next[i]);
    TurnFinds(bs, size, k);
    TakenInTurns(bs, size, k);
    SlotsPrefix(bs, size, k, size);
    SlotsPrefix(bs, size, k + 1, size);
    assert slots[k] == slots[..k + 1][k] == SlotOf(bs, size, k);
    PrefersSlot(h, keys[i], size, j);
    forall g: nat | g < j
      ensures Prefers(h, keys[i], size, g) in slots[..k]
    {
      PrefersSlot(h, keys[i], size, g);
      PassedInTurn(bs, size, k, g);
    }
    assert TakesPreference(h, keys[i], size, slots, k, j);
  }

  /** The table's law, from the hashes alone: the keys take turns in order, each
      taking the first slot it prefers that is left. */
  lemma TableLaw(h: Hashes, t: Table, size: nat)
    requires IsTable(h, t, size) && Prime(size)
    ensures exists slots: seq<nat> ::
              |slots| == size && forall k | 0 <= k < size :: slots[k] < size && TurnIs(h, t, size, slots, k)
  {
    var bs := Preferences(h, t.keys, size);
    var slots := Slots(bs, size, size);
    TakenInTurns(bs, size, size);
    forall k | 0 <= k < size
      ensures slots[k] < size && TurnIs(h, t, size, slots, k)
    {
      TurnTakes(h, t.keys, size, k);
      assert FillTo(bs, size, size).entries[slots[k]] == Some(t.entries[slots[k]]);
    }
  }

  ghost predicate TurnIs(h: Hashes, t: Table, size: nat, slots: seq<nat>, k: nat)
    requires t.keys != [] && size >= 2 && |t.entries| == size && k < |slots| && slots[k] < size
  {
    Takes(h, t.keys[k % |t.keys|], size, slots, k) && t.entries[slots[k]] == k % |t.keys|
  }

  /** Every caller building from the same backends gets the same table, in whatever
      order it saw them. */
  lemma OrderDoesNotMatter(h: Hashes, size: nat, t: Table, u: Table)
    requires IsTable(h, t, size) && IsTable(h, u, size) && multiset(t.keys) == multiset(u.keys)
    ensures t == u
  {
    forall x
      ensures x in t.keys <==> x in u.keys
    {
      assert x in t.keys <==> x in multiset(t.keys);
      assert x in u.keys <==> x in multiset(u.keys);
    }
    AscendingUnique(t.keys, u.keys);
    var f := FillTo(Preferences(h, t.keys, size), size, size);
    forall s | 0 <= s < size
      ensures t.entries[s] == u.entries[s]
    {
      assert f.entries[s] == Some(t.entries[s]) && f.entries[s] == Some(u.entries[s]);
    }
  }
}
