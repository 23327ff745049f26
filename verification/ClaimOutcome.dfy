/** How an ADD ends: rolled back, with the instance it created, unless a sibling uses
    it or its delete does not go through (internal/cnibgp/resource.go), or with its
    claim. */
module ClaimOutcome {
  import opened Common
  import opened Instances
  import opened ClaimProtocol
  import opened ClaimRuns
  import opened ClaimSurvival

  // ---- A created instance stays until it is rolled back

  predicate CreatedThere(s: State, p: Process) {
    && (p.phase.Starting? || p.phase.Enslaving? ==> !p.created)
    && (p.created && Linked(p.phase) ==> p.vpc in s.api)
  }

  ghost predicate AllCreatedThere(s: State, v: string) {
    forall p | p in s.procs && s.procs[p].vpc == v :: CreatedThere(s, s.procs[p])
  }

  lemma OwnCreated(s: State, step: Step, pid: nat)
    requires pid in s.procs && CanStep(s, step, s.procs[pid]) && CreatedThere(s, s.procs[pid])
    ensures var t := Moved(s, step, pid); CreatedThere(t, t.procs[pid])
  {
    PhaseMoves(s, step, s.procs[pid]);
  }

  lemma OthersCreated(s: State, step: Step, pid: nat, q: nat)
    requires LocksOk(s) && pid in s.procs && q in s.procs && q != pid && CanStep(s, step, s.procs[pid])
    requires CreatedThere(s, s.procs[q])
    ensures CreatedThere(Moved(s, step, pid), s.procs[q])
  {
    assert LinksSafe(s, s.procs[pid]) && LinksSafe(s, s.procs[q]) && Compatible(s.procs[pid], s.procs[q]);
  }

  lemma CreatedStep(s: State, step: Step, pid: nat, t: State, v: string)
    requires LocksOk(s) && Next(s, step, pid, t) && AllCreatedThere(s, v) && step != Land(Delete(v))
    ensures AllCreatedThere(t, v)
  {
    forall q | q in t.procs && t.procs[q].vpc == v
      ensures CreatedThere(t, t.procs[q])
    {
      ProcessesStay(s, step, pid, t, q);
      if q in s.procs {
        assert CreatedThere(s, s.procs[q]);
        if IsProcessStep(step) {
          if q == pid {
            OwnCreated(s, step, pid);
          } else {
            OthersCreated(s, step, pid, q);
          }
        }
      } else {
        assert step.Spawn? && q == pid;
      }
    }
  }

  lemma {:induction false} RunCreatedThere(run: seq<State>, steps: seq<Step>, pids: seq<nat>, k: nat, v: string)
    requires Run(run, steps, pids) && k < |run| && forall i | 0 <= i < k :: steps[i] != Land(Delete(v))
    ensures AllCreatedThere(run[k], v)
  {
    if k > 0 {
      RunCreatedThere(run, steps, pids, k - 1, v);
      RunLocks(run, steps, pids, k - 1);
      CreatedStep(run[k - 1], steps[k - 1], pids[k - 1], run[k], v);
    }
  }

  /** In every run in which no late delete of the VPC has landed: a rollback that has
      found itself alone has its instance before it, and leaves none exactly when
      its delete is answered; short of that it leaves the instance as it is, and a
      delete that is not answered is outstanding. */
  lemma RollbackExactly(run: seq<State>, steps: seq<Step>, pids: seq<nat>, k: nat)
    requires Run(run, steps, pids) && k < |steps| && IsProcessStep(steps[k])
    requires pids[k] in run[k].procs && run[k].procs[pids[k]].phase.UndoDelete?
    requires forall i | 0 <= i < k :: steps[i] != Land(Delete(run[k].procs[pids[k]].vpc))
    ensures var s, t, v := run[k], run[k + 1], run[k].procs[pids[k]].vpc;
            && v in s.api && (v !in t.api <==> steps[k].DeleteInstance?)
            && (forall n | n != v :: n in t.api <==> n in s.api)
            && (forall n | n in t.api :: n in s.api && t.api[n] == s.api[n])
            && (Delete(v) in t.late <==>
                  Delete(v) in s.late || steps[k].DeleteUnanswered? || steps[k] == Crash(true))
  {
    var s := run[k];
    RunCreatedThere(run, steps, pids, k, s.procs[pids[k]].vpc);
    RunLocks(run, steps, pids, k);
    assert Next(s, steps[k], pids[k], run[k + 1]);
    assert UndoSafe(s.procs[pids[k]]) && CreatedThere(s, s.procs[pids[k]]);
  }

  // ---- Links come and go with their ADDs

  /** What the steps say of a link: it is there once an ADD of its attachment
      enslaved it, until one unlinks it. */
  ghost predicate LinkAfter(run: seq<State>, steps: seq<Step>, pids: seq<nat>, k: nat, l: (string, string))
    requires Path(run, steps, pids) && k < |run|
  {
    if k == 0 then l in run[0].links
    else
      var step, s := steps[k - 1], run[k - 1];
      if step.Enslave? && Of(s, pids[k - 1], l) then true
      else !(step.Unlink? && Of(s, pids[k - 1], l)) && LinkAfter(run, steps, pids, k - 1, l)
  }

  predicate Of(s: State, p: nat, l: (string, string)) {
    p in s.procs && (s.procs[p].vpc, s.procs[p].attachment) == l
  }

  lemma {:induction false} LinksExactly(run: seq<State>, steps: seq<Step>, pids: seq<nat>, k: nat, l: (string, string))
    requires Path(run, steps, pids) && k < |run|
    ensures l in run[k].links <==> LinkAfter(run, steps, pids, k, l)
  {
    if k > 0 {
      LinksExactly(run, steps, pids, k - 1, l);
      assert Next(run[k - 1], steps[k - 1], pids[k - 1], run[k]);
    }
  }

  // ---- An ADD that nobody disturbs

  /** Every step is process p's. */
  ghost predicate Alone(pids: seq<nat>, p: nat) {
    forall i | 0 <= i < |pids| :: pids[i] == p
  }

  /** Steps of one process lead from s to t. */
  ghost predicate GoesTo(s: State, t: State, p: nat) {
    exists run: seq<State>, steps: seq<Step>, pids: seq<nat> ::
      Path(run, steps, pids) && run[0] == s && run[|steps|] == t && Alone(pids, p)
  }

  lemma GoesBy(s: State, step: Step, t: State, u: State, p: nat)
    requires GoesTo(s, t, p) && Next(t, step, p, u)
    ensures GoesTo(s, u, p)
  {
    var run: seq<State>, steps: seq<Step>, pids: seq<nat> :|
      Path(run, steps, pids) && run[0] == s && run[|steps|] == t && Alone(pids, p);
    var run', steps', pids' := run + [u], steps + [step], pids + [p];
    forall i | 0 <= i < |steps'|
      ensures Next(run'[i], steps'[i], pids'[i], run'[i + 1])
    {
      if i < |steps| {
        assert Next(run[i], steps[i], pids[i], run[i + 1]);
      }
    }
    assert Path(run', steps', pids') && run'[0] == s && run'[|steps'|] == u && Alone(pids', p);
  }

  lemma GoesNowhere(s: State, p: nat)
    ensures GoesTo(s, s, p)
  {
    var run, steps: seq<Step>, pids: seq<nat> := [s], [], [];
    assert Path(run, steps, pids) && run[0] == s && run[|steps|] == s && Alone(pids, p);
  }

  /** Its last steps: locked, alone, deleted. */
  lemma UndoesAlone(s: State, p: nat) returns (t: State)
    requires p in s.procs && VrfLockFree(s) && s.procs[p].phase.Undo? && s.procs[p].created
    requires !Siblings(s, s.procs[p].vpc, s.procs[p].attachment)
    ensures GoesTo(s, t, p) && t.api == s.api - {s.procs[p].vpc} && t.links == s.links && t.late == s.late
  {
    GoesNowhere(s, p);
    var s1 := Moved(s, LockUndo, p);
    GoesBy(s, LockUndo, s, s1, p);
    assert !Siblings(s1, s.procs[p].vpc, s.procs[p].attachment);
    t := DeletesAlone(s1, p);
    GoesThrough(s, s1, t, p);
  }

  lemma DeletesAlone(s: State, p: nat) returns (t: State)
    requires p in s.procs && s.procs[p].phase.UndoLocked? && !Siblings(s, s.procs[p].vpc, s.procs[p].attachment)
    ensures GoesTo(s, t, p) && t.api == s.api - {s.procs[p].vpc} && t.links == s.links && t.late == s.late
  {
    GoesNowhere(s, p);
    var s1 := Moved(s, CheckAlone, p);
    GoesBy(s, CheckAlone, s, s1, p);
    t := Moved(s1, DeleteInstance, p);
    GoesBy(s, DeleteInstance, s1, t, p);
  }

  /** From every state with the VRF lock free, an ADD that created its instance, has
      no sibling and is between attempts or giving up gets, by its own steps alone,
      to where its VPC has no instance, and nothing else has changed; and where
      Arguments were distinct, nobody finds its Argument taken any more. */
  lemma RollsBack(s: State, p: nat) returns (t: State)
    requires p in s.procs && VrfLockFree(s) && s.procs[p].created && (s.procs[p].phase.Ready? || s.procs[p].phase.Undo?)
    requires !Siblings(s, s.procs[p].vpc, s.procs[p].attachment)
    ensures GoesTo(s, t, p) && t.api == s.api - {s.procs[p].vpc} && t.links == s.links && t.late == s.late
    ensures forall x | DistinctArguments(s.api, s.router) && HoldsArgument(s.api, s.router, s.procs[p].vpc, x) ::
              forall w :: !HeldByOther(t.api, s.router, w, x)
  {
    if s.procs[p].phase.Undo? {
      t := UndoesAlone(s, p);
    } else {
      var u := Moved(s, GiveUp, p);
      GoesNowhere(s, p);
      GoesBy(s, GiveUp, s, u, p);
      assert !Siblings(u, s.procs[p].vpc, s.procs[p].attachment);
      t := UndoesAlone(u, p);
      GoesThrough(s, u, t, p);
    }
  }

  /** From every state with the Argument lock free, an ADD whose value is free gets by
      its own steps alone to where it is done with that value, which its VPC's
      instance holds, and no other instance has changed. */
  lemma Completes(s: State, p: nat, x: int) returns (t: State)
    requires p in s.procs && s.procs[p].phase.Ready? && ArgumentLockFree(s)
    requires Allocates(s.api, s.router, s.procs[p].vpc, x) && !HeldByOther(s.api, s.router, s.procs[p].vpc, x)
    ensures GoesTo(s, t, p) && p in t.procs && ClaimOf(t.procs[p]) == Some(x) && t.procs[p].phase.Done?
    ensures t.api == s.api[s.procs[p].vpc := Instance(Some(s.router), x)] && t.links == s.links && t.late == s.late
  {
    var s1 := Moved(s, LockArgument, p);
    var s2 := Moved(s1, Allocate(x), p);
    GoesNowhere(s, p);
    GoesBy(s, LockArgument, s, s1, p);
    GoesBy(s, Allocate(x), s1, s2, p);
    t := ClaimsAndFinishes(s2, p);
    GoesThrough(s, s2, t, p);
  }

  lemma ClaimsAndFinishes(s: State, p: nat) returns (t: State)
    requires p in s.procs && s.procs[p].phase.Allocated?
    requires !HeldByOther(s.api, s.router, s.procs[p].vpc, s.procs[p].phase.arg)
    ensures GoesTo(s, t, p) && p in t.procs && t.procs[p].phase == Done(s.procs[p].phase.arg)
    ensures t.api == s.api[s.procs[p].vpc := Instance(Some(s.router), s.procs[p].phase.arg)]
    ensures t.links == s.links && t.late == s.late
  {
    var v, x := s.procs[p].vpc, s.procs[p].phase.arg;
    var s1 := Moved(s, Put, p);
    WriteFree(s.api, s.router, v, x);
    t := ChecksAndFinishes(s1, p);
    GoesNowhere(s, p);
    GoesBy(s, Put, s, s1, p);
    GoesThrough(s, s1, t, p);
  }

  lemma WriteFree(api: View, router: string, v: string, x: int)
    requires !HeldByOther(api, router, v, x)
    ensures !HeldByOther(api[v := Instance(Some(router), x)], router, v, x)
  {
  }

  lemma ChecksAndFinishes(s: State, p: nat) returns (t: State)
    requires p in s.procs && s.procs[p].phase.Written?
    requires !HeldByOther(s.api, s.router, s.procs[p].vpc, s.procs[p].phase.arg)
    ensures GoesTo(s, t, p) && p in t.procs && t.procs[p].phase == Done(s.procs[p].phase.arg)
    ensures t.api == s.api && t.links == s.links && t.late == s.late
  {
    var s1 := Moved(s, Check, p);
    t := Moved(s1, Finish, p);
    GoesNowhere(s, p);
    GoesBy(s, Check, s, s1, p);
    GoesBy(s, Finish, s1, t, p);
  }

  lemma GoesThrough(s: State, t: State, u: State, p: nat)
    requires GoesTo(s, t, p) && GoesTo(t, u, p)
    ensures GoesTo(s, u, p)
  {
    var run: seq<State>, steps: seq<Step>, pids: seq<nat> :|
      Path(run, steps, pids) && run[0] == s && run[|steps|] == t && Alone(pids, p);
    var run', steps', pids' :|
      Path(run', steps', pids') && run'[0] == t && run'[|steps'|] == u && Alone(pids', p);
    Joined(run, steps, pids, run', steps', pids');
    var all, every, who := run + run'[1..], steps + steps', pids + pids';
    assert all[|every|] == u && Alone(who, p);
    assert Path(all, every, who) && all[0] == s;
  }

  lemma Joined(run: seq<State>, steps: seq<Step>, pids: seq<nat>, run': seq<State>, steps': seq<Step>, pids': seq<nat>)
    requires Path(run, steps, pids) && Path(run', steps', pids') && run[|steps|] == run'[0]
    ensures Path(run + run'[1..], steps + steps', pids + pids')
  {
    var all, every, who := run + run'[1..], steps + steps', pids + pids';
    forall i | 0 <= i < |every|
      ensures Next(all[i], every[i], who[i], all[i + 1])
    {
      if i < |steps| {
        assert Next(run[i], steps[i], pids[i], run[i + 1]);
      } else {
        assert Next(run'[i - |steps|], steps'[i - |steps|], pids'[i - |steps|], run'[i - |steps| + 1]);
        assert all[i] == run'[i - |steps|];
      }
    }
  }
}
