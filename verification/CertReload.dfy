/** The certificate reloader (internal/certreload/certreload.go) under concurrent
    callers and file rewrites. A file's stamp identifies its version, so versions
    stand for stamps and contents. A call stats both files without the lock, then
    takes the lock, and loads both files again unless the cached stamp is its own;
    every stat and every file read is its own step. */
module CertReload {
  import opened Common

  /** The versions of the certificate and the key. */
  datatype Pair = Pair(cert: nat, key: nat)

  predicate AtMost(a: Pair, b: Pair) {
    a.cert <= b.cert && a.key <= b.key
  }

  datatype Phase =
    | Idle
    | StattedCert(cert: nat)
    | Statted(stat: Pair)
    | Locked(stat: Pair)
    | Loading(stat: Pair)
    | LoadedCert(stat: Pair, cert: nat)
    | Returned(stat: Pair, served: Pair)

  datatype Cache = Cache(stamp: Pair, pair: Pair)

  datatype State = State(files: Pair, cache: Option<Cache>, lock: Option<nat>, calls: nat -> Phase)

  datatype Step =
    | RewriteCert
    | RewriteKey
    | StatCert(id: nat)
    | StatKey(id: nat)
    | Lock(id: nat)
    | Hit(id: nat)
    | Miss(id: nat)
    | LoadCert(id: nat)
    | LoadKey(id: nat)
    | Fail(id: nat)

  predicate Enabled(s: State, a: Step) {
    match a
    case RewriteCert => true
    case RewriteKey => true
    case StatCert(id) => s.calls(id).Idle? || s.calls(id).Returned?
    case StatKey(id) => s.calls(id).StattedCert?
    case Lock(id) => s.calls(id).Statted? && s.lock.None?
    case Hit(id) => s.calls(id).Locked? && s.cache.Some? && s.cache.value.stamp == s.calls(id).stat
    case Miss(id) => s.calls(id).Locked? && (s.cache.None? || s.cache.value.stamp != s.calls(id).stat)
    case LoadCert(id) => s.calls(id).Loading?
    case LoadKey(id) => s.calls(id).LoadedCert?
    case Fail(id) => !s.calls(id).Idle? && !s.calls(id).Returned?
  }

  function Set(f: nat -> Phase, id: nat, p: Phase): nat -> Phase {
    (i: nat) => if i == id then p else f(i)
  }

  function To(s: State, id: nat, p: Phase): State {
    s.(calls := Set(s.calls, id, p))
  }

  function Unlock(s: State, id: nat): State {
    if s.lock == Some(id) then s.(lock := None) else s
  }

  function Apply(s: State, a: Step): State
    requires Enabled(s, a)
  {
    match a
    case RewriteCert => s.(files := s.files.(cert := s.files.cert + 1))
    case RewriteKey => s.(files := s.files.(key := s.files.key + 1))
    case StatCert(id) => To(s, id, StattedCert(s.files.cert))
    case StatKey(id) => To(s, id, Statted(Pair(s.calls(id).cert, s.files.key)))
    case Lock(id) => To(s, id, Locked(s.calls(id).stat)).(lock := Some(id))
    case Hit(id) => Unlock(To(s, id, Returned(s.calls(id).stat, s.cache.value.pair)), id)
    case Miss(id) => To(s, id, Loading(s.calls(id).stat))
    case LoadCert(id) => To(s, id, LoadedCert(s.calls(id).stat, s.files.cert))
    case LoadKey(id) =>
      var stat, pair := s.calls(id).stat, Pair(s.calls(id).cert, s.files.key);
      Unlock(To(s, id, Returned(stat, pair)).(cache := Some(Cache(stat, pair))), id)
    case Fail(id) => Unlock(To(s, id, Idle), id)
  }

  ghost predicate Next(s: State, t: State, a: Step) {
    Enabled(s, a) && t == Apply(s, a)
  }

  predicate Init(s: State) {
    s.cache.None? && s.lock.None?
  }

  // ---- Never older than what was stat'ed

  predicate PhaseOk(p: Phase, files: Pair) {
    match p
    case Idle => true
    case StattedCert(c) => c <= files.cert
    case Statted(stat) => AtMost(stat, files)
    case Locked(stat) => AtMost(stat, files)
    case Loading(stat) => AtMost(stat, files)
    case LoadedCert(stat, c) => AtMost(stat, files) && stat.cert <= c <= files.cert
    case Returned(stat, served) => AtMost(stat, served) && AtMost(served, files)
  }

  ghost predicate Inv(s: State) {
    && (s.cache.Some? ==> AtMost(s.cache.value.stamp, s.cache.value.pair) && AtMost(s.cache.value.pair, s.files))
    && forall id :: PhaseOk(s.calls(id), s.files)
  }

  lemma NextInv(s: State, t: State, a: Step)
    requires Inv(s) && Next(s, t, a)
    ensures Inv(t)
  {
    forall id
      ensures PhaseOk(t.calls(id), t.files)
    {
      assert PhaseOk(s.calls(id), s.files);
    }
  }

  ghost predicate Run(states: seq<State>, steps: seq<Step>) {
    && |states| == |steps| + 1 && Init(states[0]) && (forall id :: states[0].calls(id).Idle?)
    && forall i | 0 <= i < |steps| :: Next(states[i], states[i + 1], steps[i])
  }

  lemma {:induction false} RunInv(states: seq<State>, steps: seq<Step>, i: nat)
    requires Run(states, steps) && i < |states|
    ensures Inv(states[i])
  {
    if i > 0 {
      RunInv(states, steps, i - 1);
      NextInv(states[i - 1], states[i], steps[i - 1]);
    }
  }

  /** A served pair is, in each component, no older than the file its call stat'ed
      and no newer than the file is. */
  lemma NeverOlder(states: seq<State>, steps: seq<Step>, i: nat, id: nat)
    requires Run(states, steps) && i < |states| && states[i].calls(id).Returned?
    ensures AtMost(states[i].calls(id).stat, states[i].calls(id).served)
    ensures AtMost(states[i].calls(id).served, states[i].files)
  {
    RunInv(states, steps, i);
    assert PhaseOk(states[i].calls(id), states[i].files);
  }

  // ---- The final pair

  predicate Rewrites(a: Step) {
    a.RewriteCert? || a.RewriteKey?
  }

  /** What a call begun after the last rewrite has stat'ed is final. */
  predicate Fresh(p: Phase, files: Pair) {
    match p
    case Idle => true
    case StattedCert(c) => c == files.cert
    case Statted(stat) => stat == files
    case Locked(stat) => stat == files
    case Loading(stat) => stat == files
    case LoadedCert(stat, _) => stat == files
    case Returned(stat, _) => stat == files
  }

  lemma {:induction false} FreshCall(states: seq<State>, steps: seq<Step>, i: nat, j: nat, id: nat)
    requires Run(states, steps) && i < j < |states| && steps[i] == StatCert(id)
    requires forall k | i <= k < j :: !Rewrites(steps[k])
    ensures states[j].files == states[i].files && Fresh(states[j].calls(id), states[j].files)
  {
    assert Next(states[j - 1], states[j], steps[j - 1]);
    if i < j - 1 {
      FreshCall(states, steps, i, j - 1, id);
    }
  }

  /** Once the files stop changing, every call begun since returns the final pair. */
  lemma FinalPairServed(states: seq<State>, steps: seq<Step>, i: nat, j: nat, id: nat)
    requires Run(states, steps) && i < j < |states| && steps[i] == StatCert(id)
    requires forall k | i <= k < |steps| :: !Rewrites(steps[k])
    requires states[j].calls(id).Returned?
    ensures states[j].calls(id).served == states[j].files == states[i].files
  {
    FreshCall(states, steps, i, j, id);
    NeverOlder(states, steps, j, id);
  }

  // ---- The lock

  predicate InLock(p: Phase) {
    p.Locked? || p.Loading? || p.LoadedCert?
  }

  /** At most one call is past the lock: the cache is replaced by one load at a
      time. */
  lemma {:induction false} OneLoader(states: seq<State>, steps: seq<Step>, i: nat, id: nat)
    requires Run(states, steps) && i < |states|
    ensures InLock(states[i].calls(id)) <==> states[i].lock == Some(id)
  {
    if i > 0 {
      var a := steps[i - 1];
      OneLoader(states, steps, i - 1, id);
      assert Next(states[i - 1], states[i], a);
      if !Rewrites(a) {
        OneLoader(states, steps, i - 1, a.id);
      }
    }
  }

  // ---- A call is served, and the next one from the cache

  /** The steps lead from s to t. */
  ghost predicate Leads(s: State, steps: seq<Step>, t: State)
    decreases |steps|
  {
    if steps == [] then t == s
    else Enabled(s, steps[0]) && Leads(Apply(s, steps[0]), steps[1..], t)
  }

  /** The cached pair is that of the files. */
  predicate Cached(s: State) {
    s.cache == Some(Cache(s.files, s.files))
  }

  /** The state three steps of a call on. */
  ghost function To3(s: State, id: nat): State
    requires s.calls(id).Idle? && s.lock.None?
  {
    Apply(Apply(Apply(s, StatCert(id)), StatKey(id)), Lock(id))
  }

  lemma StatsAndLocks(s: State, id: nat)
    requires s.calls(id).Idle? && s.lock.None?
    ensures Leads(s, [StatCert(id), StatKey(id), Lock(id)], To3(s, id))
    ensures To3(s, id).calls(id) == Locked(s.files) && To3(s, id).files == s.files && To3(s, id).cache == s.cache
    ensures To3(s, id).lock == Some(id)
  {
    var s1 := Apply(s, StatCert(id));
    var s2 := Apply(s1, StatKey(id));
    assert Leads(Apply(s2, Lock(id)), [], To3(s, id));
    assert [Lock(id)][1..] == [] && Leads(s2, [Lock(id)], To3(s, id));
    assert [StatKey(id), Lock(id)][1..] == [Lock(id)] && Leads(s1, [StatKey(id), Lock(id)], To3(s, id));
    assert [StatCert(id), StatKey(id), Lock(id)][1..] == [StatKey(id), Lock(id)];
  }

  lemma {:induction false} LeadsOn(s: State, steps: seq<Step>, t: State, more: seq<Step>, u: State)
    requires Leads(s, steps, t) && Leads(t, more, u)
    ensures Leads(s, steps + more, u)
    decreases |steps|
  {
    if steps == [] {
      assert steps + more == more;
    } else {
      LeadsOn(Apply(s, steps[0]), steps[1..], t, more, u);
      assert (steps + more)[1..] == steps[1..] + more;
    }
  }

  /** From every reachable state with the lock free, a call can be served the files'
      pair by its own steps alone, and leaves it cached. */
  lemma Serves(states: seq<State>, steps: seq<Step>, i: nat, id: nat) returns (own: seq<Step>, t: State)
    requires Run(states, steps) && i < |states| && states[i].calls(id).Idle? && states[i].lock.None?
    ensures Leads(states[i], own, t) && t.calls(id) == Returned(states[i].files, states[i].files)
    ensures t.files == states[i].files && Cached(t) && t.lock.None?
  {
    var s := states[i];
    RunInv(states, steps, i);
    StatsAndLocks(s, id);
    var u := To3(s, id);
    var more;
    if Enabled(u, Hit(id)) {
      more, t := [Hit(id)], Apply(u, Hit(id));
      assert Leads(t, [], t) && more[1..] == [] && Leads(u, more, t);
    } else {
      more, t := LoadsBoth(u, id);
    }
    own := [StatCert(id), StatKey(id), Lock(id)] + more;
    LeadsOn(s, [StatCert(id), StatKey(id), Lock(id)], u, more, t);
  }

  lemma LoadsBoth(s: State, id: nat) returns (more: seq<Step>, t: State)
    requires s.calls(id) == Locked(s.files) && s.lock == Some(id) && Enabled(s, Miss(id))
    ensures Leads(s, more, t) && t.calls(id) == Returned(s.files, s.files) && t.files == s.files && Cached(t)
    ensures t.lock.None?
  {
    var s1 := Apply(s, Miss(id));
    var s2 := Apply(s1, LoadCert(id));
    t := Apply(s2, LoadKey(id));
    more := [Miss(id), LoadCert(id), LoadKey(id)];
    assert Leads(t, [], t) && [LoadKey(id)][1..] == [] && Leads(s2, [LoadKey(id)], t);
    assert more[1..] == [LoadCert(id), LoadKey(id)] && more[1..][1..] == [LoadKey(id)];
    assert Leads(s1, [LoadCert(id), LoadKey(id)], t);
  }

  /** With the files' pair cached, a call that stats and locks now hits, and does not
      load. */
  lemma ServedFromCache(s: State, id: nat)
    requires s.calls(id).Idle? && s.lock.None? && Cached(s)
    ensures var u := To3(s, id);
            Enabled(u, Hit(id)) && !Enabled(u, Miss(id)) && Apply(u, Hit(id)).calls(id) == Returned(s.files, s.files)
  {
    StatsAndLocks(s, id);
  }
}
