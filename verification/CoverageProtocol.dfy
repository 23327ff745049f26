/** Publication of the datapath's coverage (cmd/galactic-gateway/root.go,
    cmd/galactic-nat/root.go). Writers record the missing interfaces under a mutex
    and then nudge a channel of capacity one without blocking; a follower re-reads
    and publishes readiness. In galactic-nat the follower also nudges a second
    channel, whose event reaches the reconciler through its work queue, and the
    reconciler re-reads and publishes the Ready condition. Turning an event into
    queued keys lists the shards, and an event whose list fails is dropped
    (internal/controller/egressshard_controller.go).

    Every lock-protected section, channel operation and publication is one atomic
    step; any number of writers interleave with the follower and the reconciler. */
module CoverageProtocol {
  datatype Follower = Reading | Publishing(serving: bool) | Waiting | Forwarding
  datatype Reconciler = Idle | Fetching | Reporting(ready: bool)

  datatype State = State(
    missing: seq<string>,
    nudging: set<nat>,        // writers past their write and not yet past their nudge
    changed: bool,            // the nudge channel holds its one element
    follower: Follower,
    serving: bool,            // the published readiness
    events: bool,             // the event channel holds its one element
    queued: bool,             // the reconciler's work queue holds the shard's key
    reconciler: Reconciler,
    ready: bool,              // the published condition
    dropped: bool)            // an event was dropped since the reconciler last read

  datatype Step =
    | Write(writer: nat, missing: seq<string>)
    | Nudge(writer: nat)
    | Read
    | Publish
    | Receive
    | Forward
    | Enqueue
    | EnqueueFails
    | Start
    | Fetch
    | FetchFails
    | Report
    | ReportFails
    | Requeue    // any other reason to reconcile

  predicate Covered(s: State) {
    s.missing == []
  }

  /** forwards tells galactic-nat's follower from galactic-gateway's. */
  predicate Enabled(forwards: bool, s: State, a: Step) {
    match a
    case Write(w, _) => w !in s.nudging
    case Nudge(w) => w in s.nudging
    case Read => s.follower.Reading?
    case Publish => s.follower.Publishing?
    case Receive => s.follower.Waiting? && s.changed
    case Forward => s.follower.Forwarding?
    case Enqueue => s.events
    case EnqueueFails => s.events
    case Start => s.queued && s.reconciler.Idle?
    case Fetch => s.reconciler.Fetching?
    case FetchFails => s.reconciler.Fetching?
    case Report => s.reconciler.Reporting?
    case ReportFails => s.reconciler.Reporting?
    case Requeue => true
  }

  function Apply(forwards: bool, s: State, a: Step): State
    requires Enabled(forwards, s, a)
  {
    match a
    case Write(w, m) => s.(missing := m, nudging := if m == s.missing then s.nudging else s.nudging + {w})
    case Nudge(w) => s.(nudging := s.nudging - {w}, changed := true)
    case Read => s.(follower := Publishing(Covered(s)))
    case Publish => s.(follower := Waiting, serving := s.follower.serving)
    case Receive => s.(changed := false, follower := if forwards then Forwarding else Reading)
    case Forward => s.(events := true, follower := Reading)
    case Enqueue => s.(events := false, queued := true)
    case EnqueueFails => s.(events := false, dropped := true)
    case Start => s.(queued := false, reconciler := Fetching)
    case Fetch => s.(reconciler := Reporting(Covered(s)), dropped := false)
    case FetchFails => s.(reconciler := Idle, queued := true)
    case Report => s.(reconciler := Idle, ready := s.reconciler.ready)
    case ReportFails => s.(reconciler := Idle, queued := true)
    case Requeue => s.(queued := true)
  }

  predicate Next(forwards: bool, s: State, t: State, a: Step) {
    Enabled(forwards, s, a) && t == Apply(forwards, s, a)
  }

  /** The process starts with its follower about to read, its reconciler about to
      run once, and whatever coverage setup left. */
  predicate Init(s: State) {
    s.nudging == {} && s.follower.Reading? && s.queued && s.reconciler.Idle?
  }

  // ---- Safety

  /** No step is left that would make the follower read again. */
  predicate Settled(s: State) {
    s.nudging == {} && !s.changed
  }

  predicate ShardSettled(s: State) {
    Settled(s) && !s.follower.Forwarding? && !s.events && !s.queued
  }

  predicate Inv(forwards: bool, s: State) {
    && (Settled(s) ==>
          && (s.follower.Waiting? ==> s.serving == Covered(s))
          && (s.follower.Publishing? ==> s.follower.serving == Covered(s)))
    && (forwards && ShardSettled(s) && !s.dropped ==>
          && (s.reconciler.Idle? ==> s.ready == Covered(s))
          && (s.reconciler.Reporting? ==> s.reconciler.ready == Covered(s)))
  }

  lemma NextInv(forwards: bool, s: State, t: State, a: Step)
    requires Inv(forwards, s) && Next(forwards, s, t, a)
    ensures Inv(forwards, t)
  {
    if a.Nudge? || (a.Write? && a.missing != s.missing) {
      assert a.Write? ==> a.writer in t.nudging;
    }
  }

  ghost predicate Run(forwards: bool, states: seq<State>, steps: seq<Step>) {
    && |states| == |steps| + 1 && Init(states[0])
    && forall i | 0 <= i < |steps| :: Next(forwards, states[i], states[i + 1], steps[i])
  }

  lemma {:induction false} RunInv(forwards: bool, states: seq<State>, steps: seq<Step>, i: nat)
    requires Run(forwards, states, steps) && i < |states|
    ensures Inv(forwards, states[i])
  {
    if i > 0 {
      RunInv(forwards, states, steps, i - 1);
      NextInv(forwards, states[i - 1], states[i], steps[i - 1]);
    }
  }

  /** No lost wake-up: whenever the writers are idle and the follower is blocked
      on an empty channel, readiness is published as it is. */
  lemma ReadinessPublished(forwards: bool, states: seq<State>, steps: seq<Step>, i: nat)
    requires Run(forwards, states, steps) && i < |states|
    requires states[i].nudging == {} && states[i].follower.Waiting? && !states[i].changed
    ensures states[i].serving <==> states[i].missing == []
  {
    RunInv(forwards, states, steps, i);
  }

  /** The same through galactic-nat's second channel and the work queue, unless an
      event was dropped since the reconciler last read the coverage. */
  lemma ConditionPublished(states: seq<State>, steps: seq<Step>, i: nat)
    requires Run(true, states, steps) && i < |states| && !states[i].dropped
    requires states[i].nudging == {} && states[i].follower.Waiting? && !states[i].changed
    requires !states[i].events && !states[i].queued && states[i].reconciler.Idle?
    ensures states[i].ready <==> states[i].missing == []
    ensures states[i].ready == states[i].serving
  {
    RunInv(true, states, steps, i);
  }

  // ---- Progress

  /** Every step but a new write, a requeue or a failure. */
  predicate Internal(a: Step) {
    !a.Write? && !a.Requeue? && !a.EnqueueFails? && !a.FetchFails? && !a.ReportFails?
  }

  function FollowerCost(f: Follower): nat {
    match f case Waiting => 0 case Publishing(_) => 1 case Reading => 2 case Forwarding => 7
  }

  function ReconcilerCost(r: Reconciler): nat {
    match r case Idle => 0 case Reporting(_) => 1 case Fetching => 2
  }

  function Cost(s: State): nat {
    9 * |s.nudging| + (if s.changed then 8 else 0) + FollowerCost(s.follower)
    + (if s.events then 4 else 0) + (if s.queued then 3 else 0) + ReconcilerCost(s.reconciler)
  }

  lemma InternalCosts(forwards: bool, s: State, t: State, a: Step)
    requires Next(forwards, s, t, a) && Internal(a)
    ensures Cost(t) < Cost(s) && t.missing == s.missing
  {
    match a
    case Nudge(w) => assert |t.nudging| == |s.nudging| - 1;
    case Read =>
    case Publish =>
    case Receive =>
    case Forward =>
    case Enqueue =>
    case Start =>
    case Fetch =>
    case Report =>
  }

  ghost predicate Stopped(forwards: bool, s: State) {
    forall a | Enabled(forwards, s, a) :: !Internal(a)
  }

  lemma StoppedIsBlocked(forwards: bool, s: State)
    requires Stopped(forwards, s)
    ensures s.nudging == {} && s.follower.Waiting? && !s.changed && !s.events && !s.queued && s.reconciler.Idle?
  {
    if w :| w in s.nudging {
      assert Enabled(forwards, s, Nudge(w));
    }
    assert !Enabled(forwards, s, Read) && !Enabled(forwards, s, Publish) && !Enabled(forwards, s, Receive);
    assert !Enabled(forwards, s, Forward) && !Enabled(forwards, s, Enqueue) && !Enabled(forwards, s, Start);
    assert !Enabled(forwards, s, Fetch) && !Enabled(forwards, s, Report);
  }

  /** A reconcile that fails, before or after it reads, is started again. */
  lemma FailureRetries(forwards: bool, s: State, t: State, a: Step)
    requires Next(forwards, s, t, a) && (a.FetchFails? || a.ReportFails?)
    ensures Enabled(forwards, t, Start) && t.ready == s.ready && FinallyReady(t) == Covered(t)
  {
  }

  /** A schedule of internal steps from s to t. */
  ghost predicate Schedule(forwards: bool, states: seq<State>, steps: seq<Step>, s: State, t: State) {
    && |states| == |steps| + 1 && states[0] == s && states[|steps|] == t
    && forall i | 0 <= i < |steps| :: Next(forwards, states[i], states[i + 1], steps[i]) && Internal(steps[i])
  }

  /** What readiness comes to rest at: what is left to read, or else what is read
      or published. */
  predicate FinallyServing(s: State) {
    if s.nudging != {} || s.changed || s.follower.Reading? || s.follower.Forwarding? then Covered(s)
    else if s.follower.Publishing? then s.follower.serving
    else s.serving
  }

  /** Something on its way makes the reconciler read again. */
  predicate Pending(s: State) {
    s.nudging != {} || s.changed || s.follower.Forwarding? || s.events || s.queued || s.reconciler.Fetching?
  }

  predicate FinallyReady(s: State) {
    if Pending(s) then Covered(s) else if s.reconciler.Reporting? then s.reconciler.ready else s.ready
  }

  lemma FinallyKept(forwards: bool, s: State, t: State, a: Step)
    requires Next(forwards, s, t, a) && Internal(a)
    ensures FinallyServing(t) == FinallyServing(s) && (forwards ==> FinallyReady(t) == FinallyReady(s))
  {
    if a.Nudge? {
      assert t.changed;
    }
  }

  lemma {:induction false} ScheduleKeeps(forwards: bool, states: seq<State>, steps: seq<Step>, i: nat)
    requires i < |states| == |steps| + 1 && Schedule(forwards, states, steps, states[0], states[|steps|])
    ensures Cost(states[i]) + i <= Cost(states[0]) && states[i].missing == states[0].missing
    ensures FinallyServing(states[i]) == FinallyServing(states[0])
    ensures forwards ==> FinallyReady(states[i]) == FinallyReady(states[0])
  {
    if i > 0 {
      ScheduleKeeps(forwards, states, steps, i - 1);
      assert Next(forwards, states[i - 1], states[i], steps[i - 1]) && Internal(steps[i - 1]);
      InternalCosts(forwards, states[i - 1], states[i], steps[i - 1]);
      FinallyKept(forwards, states[i - 1], states[i], steps[i - 1]);
    }
  }

  /** Once coverage stops changing, every schedule comes to rest within Cost steps,
      and always at the same publications. */
  lemma Converges(forwards: bool, states: seq<State>, steps: seq<Step>, s: State, t: State)
    requires Schedule(forwards, states, steps, s, t)
    ensures |steps| <= Cost(s)
    ensures Stopped(forwards, t) ==> t.serving == FinallyServing(s) && (forwards ==> t.ready == FinallyReady(s))
  {
    ScheduleKeeps(forwards, states, steps, |steps|);
    if Stopped(forwards, t) {
      StoppedIsBlocked(forwards, t);
    }
  }

  /** There is such a schedule. */
  lemma {:induction false} ComesToRest(forwards: bool, s: State)
    returns (states: seq<State>, steps: seq<Step>, t: State)
    ensures Schedule(forwards, states, steps, s, t) && Stopped(forwards, t)
    decreases Cost(s)
  {
    if Stopped(forwards, s) {
      return [s], [], s;
    }
    var a :| Enabled(forwards, s, a) && Internal(a);
    var u := Apply(forwards, s, a);
    InternalCosts(forwards, s, u, a);
    var rest, more;
    rest, more, t := ComesToRest(forwards, u);
    states, steps := [s] + rest, [a] + more;
    forall i | 0 <= i < |steps|
      ensures Next(forwards, states[i], states[i + 1], steps[i]) && Internal(steps[i])
    {
      if i > 0 {
        assert Next(forwards, rest[i - 1], rest[i], more[i - 1]) && Internal(more[i - 1]);
      }
    }
  }

  /** In every reachable state with no drop outstanding both come to rest right. */
  lemma RestsRight(forwards: bool, states: seq<State>, steps: seq<Step>, i: nat)
    requires Run(forwards, states, steps) && i < |states|
    ensures FinallyServing(states[i]) == Covered(states[i])
    ensures forwards && !states[i].dropped ==> FinallyReady(states[i]) == Covered(states[i])
  {
    RunInv(forwards, states, steps, i);
  }

  /** From any reachable state, once coverage stops changing, readiness comes to
      rest right, and the condition too unless an event was dropped since the
      reconciler last read. */
  lemma ConvergesRight(
    forwards: bool, run: seq<State>, done: seq<Step>, i: nat, states: seq<State>, steps: seq<Step>, t: State)
    requires Run(forwards, run, done) && i < |run|
    requires Schedule(forwards, states, steps, run[i], t) && Stopped(forwards, t)
    ensures t.missing == run[i].missing && t.serving == Covered(t)
    ensures forwards && !run[i].dropped ==> t.ready == Covered(t)
  {
    RestsRight(forwards, run, done, i);
    ScheduleKeeps(forwards, states, steps, |steps|);
    Converges(forwards, states, steps, run[i], t);
  }

  // ---- Exactly what a dropped event costs

  /** However the rest of the work is scheduled, the condition ends right. */
  ghost predicate EndsRight(s: State) {
    forall states: seq<State>, steps: seq<Step>, t: State | Schedule(true, states, steps, s, t) && Stopped(true, t) ::
      t.ready == Covered(s)
  }

  /** A dropped event costs the condition exactly when nothing else on its way
      makes the reconciler read again and what it reports, or reported last, is not
      the coverage. */
  lemma DropMissesExactly(s: State)
    requires s.events
    ensures var t := Apply(true, s, EnqueueFails);
            EndsRight(t) <==>
              Pending(t) || (if s.reconciler.Reporting? then s.reconciler.ready else s.ready) == Covered(s)
  {
    var t := Apply(true, s, EnqueueFails);
    forall states: seq<State>, steps: seq<Step>, u: State | Schedule(true, states, steps, t, u) && Stopped(true, u)
      ensures u.ready == FinallyReady(t)
    {
      Converges(true, states, steps, t, u);
    }
    var states, steps, u := ComesToRest(true, t);
    assert Schedule(true, states, steps, t, u) && Stopped(true, u);
  }

  ghost predicate Reachable(forwards: bool, s: State) {
    exists states: seq<State>, steps: seq<Step> :: Run(forwards, states, steps) && states[|steps|] == s
  }

  lemma ReachNext(forwards: bool, s: State, a: Step, t: State)
    requires Reachable(forwards, s) && Next(forwards, s, t, a)
    ensures Reachable(forwards, t)
  {
    var states: seq<State>, steps: seq<Step> :| Run(forwards, states, steps) && states[|steps|] == s;
    var more, longer := states + [t], steps + [a];
    forall i | 0 <= i < |longer|
      ensures Next(forwards, more[i], more[i + 1], longer[i])
    {
      if i < |steps| {
        assert Next(forwards, states[i], states[i + 1], steps[i]);
      }
    }
    assert Run(forwards, more, longer) && more[|longer|] == t;
  }

  /** Everything published and nothing going on. */
  function Resting(missing: seq<string>, serving: bool, ready: bool, dropped: bool): State {
    State(missing, {}, false, Waiting, serving, false, false, Idle, ready, dropped)
  }

  lemma ReachResting()
    ensures Reachable(true, Resting([], true, true, false))
  {
    var s0 := State([], {}, false, Reading, true, false, true, Idle, true, false);
    assert Run(true, [s0], []);
    var s1 := s0.(queued := false, reconciler := Fetching);
    ReachNext(true, s0, Start, s1);
    var s2 := s1.(reconciler := Reporting(true));
    ReachNext(true, s1, Fetch, s2);
    var s3 := s2.(reconciler := Idle);
    ReachNext(true, s2, Report, s3);
    var s4 := s3.(follower := Publishing(true));
    ReachNext(true, s3, Read, s4);
    ReachNext(true, s4, Publish, Resting([], true, true, false));
  }

  lemma ReachForwarded(missing: seq<string>)
    requires missing != []
    ensures Reachable(true, Resting(missing, true, true, false).(follower := Reading, events := true))
  {
    ReachResting();
    var s0 := Resting([], true, true, false);
    var s1 := s0.(missing := missing, nudging := {0});
    ReachNext(true, s0, Write(0, missing), s1);
    var s2 := s1.(nudging := {}, changed := true);
    ReachNext(true, s1, Nudge(0), s2);
    var s3 := s2.(changed := false, follower := Forwarding);
    ReachNext(true, s2, Receive, s3);
    ReachNext(true, s3, Forward, Resting(missing, true, true, false).(follower := Reading, events := true));
  }

  /** Uplinks go missing, readiness follows, and the shard stays Ready. */
  lemma DroppedEventLeavesReady(missing: seq<string>)
    requires missing != []
    ensures Reachable(true, Resting(missing, false, true, true))
  {
    ReachForwarded(missing);
    var s0 := Resting(missing, true, true, false).(follower := Reading, events := true);
    var s1 := s0.(events := false, dropped := true);
    ReachNext(true, s0, EnqueueFails, s1);
    var s2 := s1.(follower := Publishing(false));
    ReachNext(true, s1, Read, s2);
    ReachNext(true, s2, Publish, Resting(missing, false, true, true));
  }
}
