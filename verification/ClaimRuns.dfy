/** What the claim protocol keeps over whole runs: distinct Arguments, claims that
    stay, and exactly when a request that was not answered does harm. */
module ClaimRuns {
  import opened Common
  import opened Instances
  import opened ClaimProtocol

  // ---- Whole runs

  /** steps[i], by process pids[i], leads from run[i] to run[i + 1]. */
  ghost predicate Path(run: seq<State>, steps: seq<Step>, pids: seq<nat>) {
    && |run| == |steps| + 1 == |pids| + 1
    && forall i | 0 <= i < |steps| :: Next(run[i], steps[i], pids[i], run[i + 1])
  }

  /** Every late write lands safely. */
  ghost predicate AllBenign(run: seq<State>, steps: seq<Step>, k: nat)
    requires k <= |steps| < |run|
  {
    forall i | 0 <= i < k :: Benign(run[i], steps[i])
  }

  ghost predicate Run(run: seq<State>, steps: seq<Step>, pids: seq<nat>) {
    Path(run, steps, pids) && Init(run[0])
  }

  lemma {:induction false} PathInv(run: seq<State>, steps: seq<Step>, pids: seq<nat>, k: nat)
    requires Path(run, steps, pids) && k < |run| && Inv(run[0]) && AllBenign(run, steps, k)
    ensures Inv(run[k]) && run[k].router == run[0].router
  {
    if k > 0 {
      PathInv(run, steps, pids, k - 1);
      NextInv(run[k - 1], steps[k - 1], pids[k - 1], run[k]);
    }
  }

  /** The invariant holds in every state of every interleaving. */
  lemma RunInv(run: seq<State>, steps: seq<Step>, pids: seq<nat>, k: nat)
    requires Run(run, steps, pids) && k < |run| && AllBenign(run, steps, k)
    ensures Inv(run[k]) && run[k].router == run[0].router
  {
    PathInv(run, steps, pids, k);
  }

  /** No write is left outstanding. */
  ghost predicate WritesAnswered(steps: seq<Step>, k: nat)
    requires k <= |steps|
  {
    forall i | 0 <= i < k :: !steps[i].Send? && steps[i] != Crash(true)
  }

  lemma {:induction false} OnlyDeletesLate(run: seq<State>, steps: seq<Step>, pids: seq<nat>, k: nat)
    requires Run(run, steps, pids) && k < |run| && WritesAnswered(steps, k)
    ensures forall r | r in run[k].late :: r.Delete?
  {
    if k > 0 {
      OnlyDeletesLate(run, steps, pids, k - 1);
      assert Next(run[k - 1], steps[k - 1], pids[k - 1], run[k]);
      forall r | r in run[k].late
        ensures r.Delete?
      {
        assert r !in run[k - 1].late ==> IsProcessStep(steps[k - 1]);
      }
    }
  }

  /** Where every write is answered, no late write lands at all, so everything
      below holds of such a run outright. */
  lemma AnsweredIsBenign(run: seq<State>, steps: seq<Step>, pids: seq<nat>, k: nat)
    requires Run(run, steps, pids) && k < |run| && WritesAnswered(steps, k)
    ensures AllBenign(run, steps, k)
  {
    forall i | 0 <= i < k
      ensures Benign(run[i], steps[i])
    {
      OnlyDeletesLate(run, steps, pids, i);
      assert Next(run[i], steps[i], pids[i], run[i + 1]);
    }
  }

  /** The router's instances hold distinct Arguments and no ADD has met a
      collision. */
  ghost predicate Steady(s: State) {
    DistinctArguments(s.api, s.router) && forall p | p in s.procs :: !s.procs[p].phase.Colliding?
  }

  lemma InvSteady(s: State)
    requires Inv(s)
    ensures Steady(s)
  {
    forall p | p in s.procs
      ensures !s.procs[p].phase.Colliding?
    {
      assert FlagsSafe(s.procs[p]);
    }
  }

  /** In every interleaving of any number of ADDs, retries, crashes and
      rollbacks, the router's instances hold distinct Arguments and no ADD
      ever meets a collision, so none is ever moved. */
  lemma ArgumentsDistinct(run: seq<State>, steps: seq<Step>, pids: seq<nat>, k: nat)
    requires Run(run, steps, pids) && k < |run| && AllBenign(run, steps, k)
    ensures Steady(run[k])
  {
    RunInv(run, steps, pids, k);
    InvSteady(run[k]);
  }

  /** The step changes no instance's Argument; only deletion ends it. */
  ghost predicate KeepsArguments(s: State, t: State) {
    forall n | Under(s.api, s.router, n) && n in t.api :: HoldsArgument(t.api, s.router, n, s.api[n].vrfID)
  }

  lemma StepKeepsArguments(s: State, step: Step, pid: nat, t: State)
    requires Inv(s) && Next(s, step, pid, t) && Benign(s, step)
    ensures KeepsArguments(s, t)
  {
    if IsProcessStep(step) {
      assert ArgumentSafe(s, s.procs[pid]);
    } else if step.Land? {
      assert RequestSafe(s.router, step.request);
    }
  }

  /** Repeating ADDs keeps the Argument: it is constant over any stretch of a
      run in which the instance is not deleted. */
  lemma {:induction false} ArgumentStable(run: seq<State>, steps: seq<Step>, pids: seq<nat>, i: nat, j: nat, n: string)
    requires Run(run, steps, pids) && i <= j < |run| && AllBenign(run, steps, j)
    requires Under(run[i].api, run[i].router, n)
    requires forall k | i <= k <= j :: n in run[k].api
    ensures HoldsArgument(run[j].api, run[j].router, n, run[i].api[n].vrfID)
    decreases j
  {
    if i < j {
      ArgumentStable(run, steps, pids, i, j - 1, n);
      RunInv(run, steps, pids, j - 1);
      RunInv(run, steps, pids, j);
      StepKeepsArguments(run[j - 1], steps[j - 1], pids[j - 1], run[j]);
    }
  }

  // ---- Exactly when a late write is harmless

  /** Every continuation in which later writes land safely stays steady and
      changes no instance's Argument. */
  ghost predicate StaysSteady(s: State) {
    forall run: seq<State>, steps: seq<Step>, pids: seq<nat>
      | Path(run, steps, pids) && run[0] == s && AllBenign(run, steps, |steps|) ::
        SteadyPath(run)
  }

  ghost predicate SteadyPath(run: seq<State>) {
    && (forall i | 0 <= i < |run| :: Steady(run[i]))
    && forall i | 0 <= i < |run| - 1 :: KeepsArguments(run[i], run[i + 1])
  }

  lemma InvStaysSteady(s: State)
    requires Inv(s)
    ensures StaysSteady(s)
  {
    forall run: seq<State>, steps: seq<Step>, pids: seq<nat>
      | Path(run, steps, pids) && run[0] == s && AllBenign(run, steps, |steps|)
      ensures SteadyPath(run)
    {
      forall i | 0 <= i < |run|
        ensures Steady(run[i]) && (i < |run| - 1 ==> KeepsArguments(run[i], run[i + 1]))
      {
        PathInv(run, steps, pids, i);
        InvSteady(run[i]);
        if i < |run| - 1 {
          StepKeepsArguments(run[i], steps[i], pids[i], run[i + 1]);
        }
      }
    }
  }

  lemma OneStepUnsteady(s: State, step: Step, pid: nat, t: State)
    requires Next(s, step, pid, t) && Benign(s, step) && !(Steady(t) && KeepsArguments(s, t))
    ensures !StaysSteady(s)
  {
    var run := [s, t];
    assert Path(run, [step], [pid]) && AllBenign(run, [step], 1) && run[0] == s;
    assert run[1] == t && run[0 + 1] == t;
  }

  lemma NowUnsteady(s: State)
    requires !Steady(s)
    ensures !StaysSteady(s)
  {
    var run := [s];
    assert Path(run, [], []) && AllBenign(run, [], 0) && run[0] == s;
  }

  /** A choice that r surprises has an unsteady next step. */
  lemma SurprisedUnsteady(s: State, r: Request, q: nat)
    requires Inv(s) && r in s.late && Effective(s, r) && q in s.procs && !ChoiceKept(s.procs[q], r)
    ensures !StaysSteady(Landed(s, r))
  {
    var t, p := Landed(s, r), s.procs[q];
    assert HoldsArgument(t.api, t.router, r.vpc, r.arg);
    if p.phase.Allocated? {
      var u := Moved(t, Put, q);
      assert HoldsArgument(u.api, u.router, p.vpc, p.phase.arg);
      if p.vpc != r.vpc {
        assert HoldsArgument(u.api, u.router, r.vpc, r.arg);
      }
      OneStepUnsteady(t, Put, q, u);
    } else {
      var u := Moved(t, Check, q);
      assert u.procs[q].phase.Colliding?;
      OneStepUnsteady(t, Check, q, u);
    }
  }

  /** Once a late write has landed, the node stays steady exactly when it landed
      on a value that no other instance held and that the holder of the Argument
      lock had not chosen for another. */
  lemma LandingExactly(run: seq<State>, steps: seq<Step>, pids: seq<nat>, k: nat, r: Request)
    requires Run(run, steps, pids) && k < |run| && AllBenign(run, steps, k)
    requires r in run[k].late && Effective(run[k], r)
    ensures StaysSteady(Landed(run[k], r)) <==> LandsSafely(run[k], r)
  {
    var s, t := run[k], Landed(run[k], r);
    RunInv(run, steps, pids, k);
    if LandsSafely(s, r) {
      LandInv(s, r);
      InvStaysSteady(t);
    } else if HeldByOther(s.api, s.router, r.vpc, r.arg) {
      var n :| n in s.api && n != r.vpc && HoldsArgument(s.api, s.router, n, r.arg);
      assert HoldsArgument(t.api, t.router, n, r.arg) && HoldsArgument(t.api, t.router, r.vpc, r.arg);
      NowUnsteady(t);
    } else {
      var q :| q in s.procs && !ChoiceKept(s.procs[q], r);
      SurprisedUnsteady(s, r, q);
    }
  }

  // ---- Claims

  /** The instance an ADD relies on is there, and one it found there is not its
      own to roll back. */
  ghost predicate InstanceThere(s: State, p: Process) {
    && (p.phase.Written? || p.phase.Claimed? || p.phase.Done? ==>
          HoldsArgument(s.api, s.router, p.vpc, p.phase.arg))
    && (p.kept.Some? ==> HoldsArgument(s.api, s.router, p.vpc, p.kept.value) && (p.created ==> p.phase.Done?))
  }

  ghost predicate ClaimsThere(s: State, v: string) {
    forall p | p in s.procs && s.procs[p].vpc == v :: InstanceThere(s, s.procs[p])
  }

  /** The link of an ADD that relies on its instance. */
  predicate Relies(p: Process) {
    p.phase.Written? || p.phase.Claimed? || p.phase.Done? || p.kept.Some?
  }

  /** A rollback that may delete finds no other ADD relying on the instance: such
      an ADD's link is enslaved, and the check that saw none still holds the VRF
      lock. */
  lemma UndoIsAlone(s: State, z: nat, q: nat)
    requires Inv(s) && z in s.procs && q in s.procs && s.procs[z].phase.UndoDelete? && s.procs[q].vpc == s.procs[z].vpc
    ensures Relies(s.procs[q]) ==> q == z
  {
    assert LinksSafe(s, s.procs[z]) && LinksSafe(s, s.procs[q]) && FlagsSafe(s.procs[q]);
    assert q != z ==> Compatible(s.procs[z], s.procs[q]);
  }

  lemma OwnClaimMoves(s: State, step: Step, pid: nat)
    requires Inv(s) && pid in s.procs && CanStep(s, step, s.procs[pid]) && InstanceThere(s, s.procs[pid])
    ensures var t := Moved(s, step, pid); InstanceThere(t, t.procs[pid])
  {
    assert ArgumentSafe(s, s.procs[pid]) && FlagsSafe(s.procs[pid]);
  }

  lemma OtherClaimMoves(s: State, step: Step, pid: nat, q: nat)
    requires Inv(s) && pid in s.procs && q in s.procs && q != pid && CanStep(s, step, s.procs[pid])
    requires InstanceThere(s, s.procs[q])
    ensures InstanceThere(Moved(s, step, pid), s.procs[q])
  {
    var p := s.procs[pid];
    assert ArgumentSafe(s, p);
    if step.DeleteInstance? && s.procs[q].vpc == p.vpc {
      UndoIsAlone(s, pid, q);
    }
  }

  lemma ClaimLands(s: State, r: Request, p: Process)
    requires Inv(s) && r in s.late && r != Delete(p.vpc) && InstanceThere(s, p)
    ensures InstanceThere(Landed(s, r), p)
  {
    assert RequestSafe(s.router, r);
  }

  lemma ClaimStep(s: State, step: Step, pid: nat, t: State, q: nat)
    requires Inv(s) && Next(s, step, pid, t) && q in s.procs && InstanceThere(s, s.procs[q])
    requires step != Land(Delete(s.procs[q].vpc))
    ensures q in t.procs && InstanceThere(t, t.procs[q])
  {
    if step.Land? {
      ClaimLands(s, step.request, s.procs[q]);
    } else if IsProcessStep(step) {
      ClaimMoves(s, step, pid, q);
    }
  }

  lemma ClaimMoves(s: State, step: Step, pid: nat, q: nat)
    requires Inv(s) && pid in s.procs && q in s.procs && CanStep(s, step, s.procs[pid])
    requires InstanceThere(s, s.procs[q])
    ensures var t := Moved(s, step, pid); InstanceThere(t, t.procs[q])
  {
    if q == pid {
      OwnClaimMoves(s, step, pid);
    } else {
      OtherClaimMoves(s, step, pid, q);
    }
  }

  /** Every step but the landing of a late delete leaves a VPC's claims there. */
  lemma ClaimsStep(s: State, step: Step, pid: nat, t: State, v: string)
    requires Inv(s) && Next(s, step, pid, t) && ClaimsThere(s, v) && step != Land(Delete(v))
    ensures ClaimsThere(t, v)
  {
    forall q | q in t.procs && t.procs[q].vpc == v
      ensures InstanceThere(t, t.procs[q])
    {
      ProcessesStay(s, step, pid, t, q);
      if q in s.procs {
        ClaimStep(s, step, pid, t, q);
      }
    }
  }

  lemma ProcessesStay(s: State, step: Step, pid: nat, t: State, q: nat)
    requires Next(s, step, pid, t) && q in t.procs
    ensures if q in s.procs then t.procs[q].vpc == s.procs[q].vpc
            else t.procs[q].phase.Starting? && t.procs[q].kept.None?
  {
  }

  lemma {:induction false} RunClaims(run: seq<State>, steps: seq<Step>, pids: seq<nat>, k: nat, v: string)
    requires Run(run, steps, pids) && k < |run| && AllBenign(run, steps, k)
    requires forall i | 0 <= i < k :: steps[i] != Land(Delete(v))
    ensures ClaimsThere(run[k], v)
  {
    if k > 0 {
      RunClaims(run, steps, pids, k - 1, v);
      RunInv(run, steps, pids, k - 1);
      ClaimsStep(run[k - 1], steps[k - 1], pids[k - 1], run[k], v);
    }
  }

  /** The Argument an attachment has claimed: by this ADD, or by an earlier one
      this ADD repeats and has not had to create anew. */
  function ClaimOf(p: Process): Option<int> {
    if p.phase.Claimed? || p.phase.Done? then Some(p.phase.arg)
    else if p.created then None
    else p.kept
  }

  /** Once an attachment has finished its claim and while its link is enslaved,
      its instance exists and holds the Argument it claimed, in every run in
      which no late delete of its VPC lands. */
  lemma ClaimKept(run: seq<State>, steps: seq<Step>, pids: seq<nat>, k: nat, p: nat)
    requires Run(run, steps, pids) && k < |run| && AllBenign(run, steps, k)
    requires p in run[k].procs && ClaimOf(run[k].procs[p]).Some?
    requires forall i | 0 <= i < k :: steps[i] != Land(Delete(run[k].procs[p].vpc))
    ensures var q := run[k].procs[p];
            && HoldsArgument(run[k].api, run[k].router, q.vpc, ClaimOf(q).value)
            && (q.vpc, q.attachment) in run[k].links
  {
    RunInv(run, steps, pids, k);
    RunClaims(run, steps, pids, k, run[k].procs[p].vpc);
    assert InstanceThere(run[k], run[k].procs[p]) && LinksSafe(run[k], run[k].procs[p]);
  }

  /** Two ADDs in force share an Argument exactly when they share a VPC. */
  lemma ArgumentIdentifiesVpc(run: seq<State>, steps: seq<Step>, pids: seq<nat>, k: nat, p: nat, q: nat)
    requires Run(run, steps, pids) && k < |run| && AllBenign(run, steps, k) && p in run[k].procs && q in run[k].procs
    requires ClaimOf(run[k].procs[p]).Some? && ClaimOf(run[k].procs[q]).Some?
    requires forall i | 0 <= i < k :: steps[i] != Land(Delete(run[k].procs[p].vpc))
    requires forall i | 0 <= i < k :: steps[i] != Land(Delete(run[k].procs[q].vpc))
    ensures ClaimOf(run[k].procs[p]) == ClaimOf(run[k].procs[q]) <==> run[k].procs[p].vpc == run[k].procs[q].vpc
  {
    RunInv(run, steps, pids, k);
    ClaimKept(run, steps, pids, k, p);
    ClaimKept(run, steps, pids, k, q);
  }

  // ---- Exactly when a claim survives

  /** The claim of process p to arg is there, and no delete of it is outstanding. */
  ghost predicate Secured(s: State, p: nat, arg: int) {
    && p in s.procs && ClaimOf(s.procs[p]) == Some(arg)
    && HoldsArgument(s.api, s.router, s.procs[p].vpc, arg)
    && Delete(s.procs[p].vpc) !in s.late
  }

  lemma SecuredMoves(s: State, step: Step, pid: nat, p: nat, arg: int)
    requires Inv(s) && pid in s.procs && CanStep(s, step, s.procs[pid]) && Secured(s, p, arg)
    requires var t := Moved(s, step, pid); ClaimOf(t.procs[p]) == Some(arg)
    ensures Secured(Moved(s, step, pid), p, arg)
  {
    assert ArgumentSafe(s, s.procs[pid]) && FlagsSafe(s.procs[pid]);
    if s.procs[pid].phase.UndoDelete? && s.procs[pid].vpc == s.procs[p].vpc {
      UndoIsAlone(s, pid, p);
    }
  }

  lemma SecuredStep(s: State, step: Step, pid: nat, t: State, p: nat, arg: int)
    requires Inv(s) && Next(s, step, pid, t) && Secured(s, p, arg)
    requires p in t.procs && ClaimOf(t.procs[p]) == Some(arg)
    ensures Secured(t, p, arg)
  {
    if IsProcessStep(step) {
      SecuredMoves(s, step, pid, p, arg);
    } else if step.Land? {
      assert RequestSafe(s.router, step.request);
    }
  }

  ghost predicate Claiming(run: seq<State>, p: nat, arg: int) {
    forall i | 0 <= i < |run| :: p in run[i].procs && ClaimOf(run[i].procs[p]) == Some(arg)
  }

  lemma {:induction false} SecuredPath(run: seq<State>, steps: seq<Step>, pids: seq<nat>, k: nat, p: nat, arg: int)
    requires Path(run, steps, pids) && k < |run| && Inv(run[0]) && AllBenign(run, steps, k)
    requires Claiming(run, p, arg) && Secured(run[0], p, arg)
    ensures Secured(run[k], p, arg)
  {
    if k > 0 {
      SecuredPath(run, steps, pids, k - 1, p, arg);
      PathInv(run, steps, pids, k - 1);
      SecuredStep(run[k - 1], steps[k - 1], pids[k - 1], run[k], p, arg);
    }
  }

  /** The claim's instance is there in every continuation that does not end the
      claim and in which late writes land safely. */
  ghost predicate Survives(s: State, p: nat, arg: int) {
    forall run: seq<State>, steps: seq<Step>, pids: seq<nat>
      | Path(run, steps, pids) && run[0] == s && AllBenign(run, steps, |steps|) && Claiming(run, p, arg) ::
        AlwaysThere(run, p, arg)
  }

  ghost predicate AlwaysThere(run: seq<State>, p: nat, arg: int) {
    forall i | 0 <= i < |run| :: p in run[i].procs && HoldsArgument(run[i].api, run[i].router, run[i].procs[p].vpc, arg)
  }

  /** A claim that is there survives every continuation exactly when no delete of
      its VPC that a client gave up on is outstanding. */
  lemma ClaimSurvivesExactly(run: seq<State>, steps: seq<Step>, pids: seq<nat>, k: nat, p: nat, arg: int)
    requires Run(run, steps, pids) && k < |run| && AllBenign(run, steps, k)
    requires p in run[k].procs && ClaimOf(run[k].procs[p]) == Some(arg)
    requires HoldsArgument(run[k].api, run[k].router, run[k].procs[p].vpc, arg)
    ensures Survives(run[k], p, arg) <==> Delete(run[k].procs[p].vpc) !in run[k].late
  {
    var s := run[k];
    var r := Delete(s.procs[p].vpc);
    RunInv(run, steps, pids, k);
    if r in s.late {
      var path := [s, Landed(s, r)];
      assert Path(path, [Land(r)], [0]) && AllBenign(path, [Land(r)], 1) && Claiming(path, p, arg);
      assert !HoldsArgument(path[1].api, path[1].router, path[1].procs[p].vpc, arg);
    } else {
      forall path: seq<State>, more: seq<Step>, who: seq<nat>
        | Path(path, more, who) && path[0] == s && AllBenign(path, more, |more|) && Claiming(path, p, arg)
        ensures AlwaysThere(path, p, arg)
      {
        forall i | 0 <= i < |path|
          ensures p in path[i].procs && HoldsArgument(path[i].api, path[i].router, path[i].procs[p].vpc, arg)
        {
          SecuredPath(path, more, who, i, p, arg);
        }
      }
    }
  }

  // ---- Both late requests do harm

  ghost predicate Reachable(s: State) {
    exists run: seq<State>, steps: seq<Step>, pids: seq<nat> :: Run(run, steps, pids) && run[|steps|] == s
  }

  lemma ReachNext(s: State, step: Step, pid: nat, t: State)
    requires Reachable(s) && Next(s, step, pid, t)
    ensures Reachable(t)
  {
    var run: seq<State>, steps: seq<Step>, pids: seq<nat> :| Run(run, steps, pids) && run[|steps|] == s;
    var run', steps', pids' := run + [t], steps + [step], pids + [pid];
    forall i | 0 <= i < |steps'|
      ensures Next(run'[i], steps'[i], pids'[i], run'[i + 1])
    {
      if i < |steps| {
        assert Next(run[i], steps[i], pids[i], run[i + 1]);
      }
    }
    assert Run(run', steps', pids') && run'[|steps'|] == t;
  }

  function At(s: State, pid: nat, ph: Phase): State
    requires pid in s.procs
  {
    s.(procs := s.procs[pid := s.procs[pid].(phase := ph)])
  }

  /** A step that moves its process to another phase and does nothing else. */
  lemma ReachPhase(s: State, step: Step, pid: nat, ph: Phase)
    requires Reachable(s) && pid in s.procs && CanStep(s, step, s.procs[pid]) && NewPhase(s, step, s.procs[pid]) == ph
    requires !step.Put? && !step.DeleteInstance? && !step.Enslave? && !step.Unlink? && !step.Finish? && !step.Again?
    requires Unanswered(s, step, s.procs[pid]) == multiset{}
    ensures Reachable(At(s, pid, ph))
  {
    assert Moved(s, step, pid) == At(s, pid, ph);
    ReachNext(s, step, pid, At(s, pid, ph));
  }

  ghost predicate Idle(s: State) {
    ArgumentLockFree(s) && VrfLockFree(s)
  }

  function Spawned(s: State, pid: nat, vpc: string, att: string, ph: Phase): State {
    s.(procs := s.procs[pid := Process(vpc, att, ph, false, None)], links := s.links + {(vpc, att)})
  }

  /** A new ADD up to its enslaved link. */
  lemma ReachReady(s: State, pid: nat, vpc: string, att: string)
    requires Reachable(s) && Idle(s) && pid !in s.procs && (vpc, att) !in s.links
    requires forall q | q in s.procs :: Elsewhere(s.procs[q], vpc, att)
    ensures Reachable(Spawned(s, pid, vpc, att, Ready)) && Idle(Spawned(s, pid, vpc, att, Ready))
  {
    var s1 := s.(procs := s.procs[pid := Process(vpc, att, Starting, false, None)]);
    ReachNext(s, Spawn(vpc, att), pid, s1);
    ReachPhase(s1, LockVrf, pid, Enslaving);
    ReachEnslaved(At(s1, pid, Enslaving), pid);
    assert Spawned(At(s1, pid, Enslaving), pid, vpc, att, Ready) == Spawned(s, pid, vpc, att, Ready);
  }

  lemma ReachEnslaved(s: State, pid: nat)
    requires Reachable(s) && pid in s.procs && s.procs[pid].phase.Enslaving?
    requires !s.procs[pid].created && s.procs[pid].kept.None?
    ensures Reachable(Spawned(s, pid, s.procs[pid].vpc, s.procs[pid].attachment, Ready))
  {
    var t := Spawned(s, pid, s.procs[pid].vpc, s.procs[pid].attachment, Enslaved);
    assert Moved(s, Enslave, pid) == t;
    ReachNext(s, Enslave, pid, t);
    ReachPhase(t, UnlockVrf, pid, Ready);
    assert At(t, pid, Ready) == Spawned(s, pid, s.procs[pid].vpc, s.procs[pid].attachment, Ready);
  }

  /** Its choice of Argument 1. */
  lemma ReachAllocated(s: State, pid: nat)
    requires Reachable(s) && ArgumentLockFree(s) && pid in s.procs && s.procs[pid].phase.Ready?
    requires Allocates(s.api, s.router, s.procs[pid].vpc, 1)
    ensures Reachable(At(s, pid, Allocated(1, false)))
  {
    ReachPhase(s, LockArgument, pid, Listing);
    ReachPhase(At(s, pid, Listing), Allocate(1), pid, Allocated(1, false));
    assert At(At(s, pid, Listing), pid, Allocated(1, false)) == At(s, pid, Allocated(1, false));
  }

  /** The process's instance at 1, in phase ph. */
  function WithInstance(s: State, pid: nat, ph: Phase): State
    requires pid in s.procs
  {
    var p := s.procs[pid];
    s.(api := s.api[p.vpc := Instance(Some(s.router), 1)],
       procs := s.procs[pid := p.(phase := ph, created := p.created || p.vpc !in s.api)])
  }

  lemma ReachWritten(s: State, pid: nat)
    requires Reachable(s) && ArgumentLockFree(s) && pid in s.procs && s.procs[pid].phase.Ready?
    requires Allocates(s.api, s.router, s.procs[pid].vpc, 1)
    ensures Reachable(WithInstance(s, pid, Written(1, s.procs[pid].vpc !in s.api)))
  {
    ReachAllocated(s, pid);
    var s1, s2 := At(s, pid, Allocated(1, false)), WithInstance(s, pid, Written(1, s.procs[pid].vpc !in s.api));
    assert Moved(s1, Put, pid) == s2;
    ReachNext(s1, Put, pid, s2);
  }

  lemma ReachClaimed(s: State, pid: nat)
    requires Reachable(s) && Idle(s) && pid in s.procs && s.procs[pid].phase.Ready?
    requires forall n | n in s.api :: n == s.procs[pid].vpc && s.api[n] == Instance(Some(s.router), 1)
    ensures Reachable(WithInstance(s, pid, Claimed(1))) && Idle(WithInstance(s, pid, Claimed(1)))
  {
    ReachWritten(s, pid);
    var s1 := WithInstance(s, pid, Written(1, s.procs[pid].vpc !in s.api));
    ReachPhase(s1, Check, pid, Claimed(1));
    assert At(s1, pid, Claimed(1)) == WithInstance(s, pid, Claimed(1));
  }

  /** An ADD whose rollback's delete was not answered. */
  function DeleteLate(s: State, pid: nat): State
    requires pid in s.procs
  {
    At(s, pid, Over).(late := s.late + multiset{Delete(s.procs[pid].vpc)})
  }

  lemma ReachDeleteLate(s: State, pid: nat)
    requires Reachable(s) && Idle(s) && pid in s.procs && s.procs[pid].phase.Claimed? && s.procs[pid].created
    requires !Siblings(s, s.procs[pid].vpc, s.procs[pid].attachment)
    ensures Reachable(DeleteLate(s, pid)) && Idle(DeleteLate(s, pid))
  {
    ReachPhase(s, FailAttempt, pid, Ready);
    var s1 := At(s, pid, Ready);
    ReachPhase(s1, GiveUp, pid, Undo);
    ReachUndoDelete(At(s1, pid, Undo), pid);
    var s2 := At(At(s1, pid, Undo), pid, UndoDelete);
    assert Moved(s2, DeleteUnanswered, pid) == DeleteLate(s, pid);
    ReachNext(s2, DeleteUnanswered, pid, DeleteLate(s, pid));
  }

  lemma ReachUndoDelete(s: State, pid: nat)
    requires Reachable(s) && VrfLockFree(s) && pid in s.procs && s.procs[pid].phase.Undo? && s.procs[pid].created
    requires !Siblings(s, s.procs[pid].vpc, s.procs[pid].attachment)
    ensures Reachable(At(s, pid, UndoDelete))
  {
    ReachPhase(s, LockUndo, pid, UndoLocked);
    ReachPhase(At(s, pid, UndoLocked), CheckAlone, pid, UndoDelete);
    assert At(At(s, pid, UndoLocked), pid, UndoDelete) == At(s, pid, UndoDelete);
  }

  lemma ReachEmpty(router: string)
    ensures Reachable(State(router, map[], {}, map[], multiset{}))
  {
    assert Run([State(router, map[], {}, map[], multiset{})], [], []);
  }

  /** A delete its client gave up on removes the instance a sibling has claimed
      since. */
  lemma LateDeleteBreaksClaim(router: string, v: string, a: string, b: string) returns (s: State)
    requires a != b
    ensures Reachable(s) && s.router == router && 1 in s.procs && s.procs[1] == Process(v, b, Claimed(1), false, None)
    ensures (v, b) in s.links && v !in s.api
  {
    s := State(router, map[], {}, map[], multiset{});
    ReachEmpty(router);
    ReachReady(s, 0, v, a);
    s := Spawned(s, 0, v, a, Ready);
    ReachClaimed(s, 0);
    s := WithInstance(s, 0, Claimed(1));
    ReachDeleteLate(s, 0);
    s := DeleteLate(s, 0);
    ReachReady(s, 1, v, b);
    s := Spawned(s, 1, v, b, Ready);
    ReachClaimed(s, 1);
    s := WithInstance(s, 1, Claimed(1));
    ReachNext(s, Land(Delete(v)), 0, Landed(s, Delete(v)));
    s := Landed(s, Delete(v));
  }

  /** An ADD whose write of its VPC's instance was not answered. */
  function WriteLate(s: State, pid: nat): State
    requires pid in s.procs
  {
    var p := s.procs[pid];
    At(s, pid, Ready).(late := s.late + multiset{Write(p.vpc, 1, Lookup(s.api, p.vpc))})
  }

  lemma ReachWriteLate(s: State, pid: nat)
    requires Reachable(s) && Idle(s) && pid in s.procs && s.procs[pid].phase.Ready?
    requires Allocates(s.api, s.router, s.procs[pid].vpc, 1)
    ensures Reachable(WriteLate(s, pid)) && Idle(WriteLate(s, pid))
  {
    ReachAllocated(s, pid);
    var s1 := At(s, pid, Allocated(1, false));
    var s2 := At(WriteLate(s, pid), pid, Waiting);
    assert Moved(s1, Send, pid) == s2;
    ReachNext(s1, Send, pid, s2);
    ReachPhase(s2, FailAttempt, pid, Ready);
    assert At(s2, pid, Ready) == WriteLate(s, pid);
  }

  /** A create its client gave up on lands on a value another VPC has claimed
      since. The ADD that sent it does not know it created the instance, so its
      retry meets the collision, may not move, and leaves the duplicate. */
  lemma LateWriteBreaksDistinct(router: string, v: string, w: string, a: string) returns (s: State)
    requires v != w
    ensures Reachable(s) && s.router == router && !DistinctArguments(s.api, router)
    ensures 0 in s.procs && s.procs[0] == Process(v, a, Over, false, None)
    ensures 1 in s.procs && s.procs[1] == Process(w, a, Claimed(1), true, None)
  {
    s := State(router, map[], {}, map[], multiset{});
    ReachEmpty(router);
    ReachReady(s, 0, v, a);
    s := Spawned(s, 0, v, a, Ready);
    ReachWriteLate(s, 0);
    s := WriteLate(s, 0);
    ReachReady(s, 1, w, a);
    s := Spawned(s, 1, w, a, Ready);
    ReachClaimed(s, 1);
    s := WithInstance(s, 1, Claimed(1));
    ReachNext(s, Land(Write(v, 1, None)), 0, Landed(s, Write(v, 1, None)));
    s := ReachRefused(Landed(s, Write(v, 1, None)), 0, w);
  }

  /** The retry on an instance that collides with w's. */
  lemma ReachRefused(s: State, pid: nat, w: string) returns (t: State)
    requires Reachable(s) && Idle(s) && pid in s.procs && s.procs[pid].phase.Ready? && !s.procs[pid].created
    requires w != s.procs[pid].vpc && HoldsArgument(s.api, s.router, w, 1)
    requires HoldsArgument(s.api, s.router, s.procs[pid].vpc, 1)
    ensures Reachable(t) && t.router == s.router && t.api == s.api
    ensures t.procs == s.procs[pid := s.procs[pid].(phase := Over)]
  {
    ReachWritten(s, pid);
    t := WithInstance(s, pid, Written(1, false));
    assert t.api == s.api && HeldByOther(t.api, t.router, s.procs[pid].vpc, 1);
    ReachPhase(t, Check, pid, Colliding(1, false));
    ReachOver(At(t, pid, Colliding(1, false)), pid);
    t := At(At(t, pid, Colliding(1, false)), pid, Over);
  }

  /** A failed attempt and a rollback with nothing to delete. */
  lemma ReachOver(s: State, pid: nat)
    requires Reachable(s) && pid in s.procs && s.procs[pid].phase.Colliding?
    ensures Reachable(At(s, pid, Over))
  {
    ReachPhase(s, FailAttempt, pid, Ready);
    ReachPhase(At(s, pid, Ready), GiveUp, pid, Undo);
    var t := At(At(s, pid, Ready), pid, Undo);
    ReachPhase(t, SkipUndo, pid, Over);
    assert At(t, pid, Over) == At(s, pid, Over);
  }
}
