/** Exactly when a claim survives whatever comes, unsafe late writes included. */
module ClaimSurvival {
  import opened Common
  import opened Instances
  import opened ClaimProtocol
  import opened ClaimRuns

  // ---- Locks and links, whatever lands

  ghost predicate LocksOk(s: State) {
    && PairsOk(s)
    && (forall p | p in s.procs :: LinksSafe(s, s.procs[p]))
    && (forall p | p in s.procs :: UndoSafe(s.procs[p]))
  }

  lemma UndoMoves(s: State, step: Step, p: Process)
    requires CanStep(s, step, p) && UndoSafe(p)
    ensures UndoSafe(NewProcess(s, step, p))
  {
  }

  lemma LocksMove(s: State, step: Step, pid: nat)
    requires LocksOk(s) && pid in s.procs && CanStep(s, step, s.procs[pid])
    ensures LocksOk(Moved(s, step, pid))
  {
    var t := Moved(s, step, pid);
    PairsMove(s, step, pid);
    UndoMoves(s, step, s.procs[pid]);
    forall q | q in t.procs
      ensures LinksSafe(t, t.procs[q]) && UndoSafe(t.procs[q])
    {
      LinksMove(s, step, pid, q);
    }
  }

  lemma LocksSpawn(s: State, vpc: string, att: string, pid: nat, t: State)
    requires LocksOk(s) && Next(s, Spawn(vpc, att), pid, t)
    ensures LocksOk(t)
  {
    forall p | p in t.procs
      ensures LinksSafe(t, t.procs[p]) && UndoSafe(t.procs[p])
    {
      assert p != pid ==> LinksSafe(s, s.procs[p]) && UndoSafe(s.procs[p]);
    }
    forall p, q | p in t.procs && q in t.procs && p != q
      ensures Compatible(t.procs[p], t.procs[q])
    {
      assert p != pid && q != pid ==> Compatible(s.procs[p], s.procs[q]);
    }
  }

  /** The locks and the links are in order in every state of every run. */
  lemma LocksStep(s: State, step: Step, pid: nat, t: State)
    requires LocksOk(s) && Next(s, step, pid, t)
    ensures LocksOk(t) && t.router == s.router
  {
    if step.Spawn? {
      LocksSpawn(s, step.vpc, step.attachment, pid, t);
    } else if IsProcessStep(step) {
      LocksMove(s, step, pid);
    } else {
      assert t.procs == s.procs && t.links == s.links;
      forall p | p in t.procs
        ensures LinksSafe(t, t.procs[p])
      {
        assert LinksSafe(s, s.procs[p]);
      }
    }
  }

  // ---- What a claim needs

  /** A write of x to another VPC. */
  predicate Takes(r: Request, v: string, x: int) {
    r.Write? && r.vpc != v && r.arg == x
  }

  ghost predicate Untaken(s: State, v: string, x: int) {
    !HeldByOther(s.api, s.router, v, x) && forall r | r in s.late :: !Takes(r, v, x)
  }

  /** An ADD of the VPC writes nothing but arg, and is not to move the instance: one
      that may, having just created it, finds its value untaken. */
  ghost predicate Faithful(s: State, q: Process, arg: int) {
    && (q.phase.Allocated? ==> q.phase == Allocated(arg, false))
    && (q.phase.Written? && q.phase.ours ==> Untaken(s, q.vpc, q.phase.arg))
    && (q.phase.Colliding? ==> !q.phase.ours)
  }

  /** A late request leaves the claim's instance as it is. */
  predicate Harmless(r: Request, router: string, v: string, arg: int) {
    && r != Delete(v)
    && (r.Write? && r.vpc == v && r.was == Some(Instance(Some(router), arg)) ==> r.arg == arg)
  }

  ghost predicate Guarded(s: State, p: nat, arg: int) {
    && LocksOk(s) && p in s.procs && ClaimOf(s.procs[p]) == Some(arg)
    && HoldsArgument(s.api, s.router, s.procs[p].vpc, arg)
    && (forall r | r in s.late :: Harmless(r, s.router, s.procs[p].vpc, arg))
    && forall q | q in s.procs && s.procs[q].vpc == s.procs[p].vpc :: Faithful(s, s.procs[q], arg)
  }

  /** While the claim stands, no other ADD of its VPC is alone. */
  lemma NotAlone(s: State, p: nat, q: nat)
    requires LocksOk(s) && p in s.procs && q in s.procs && ClaimOf(s.procs[p]).Some?
    requires q != p && s.procs[q].vpc == s.procs[p].vpc && !s.procs[q].phase.Gone?
    ensures Siblings(s, s.procs[q].vpc, s.procs[q].attachment)
  {
    assert LinksSafe(s, s.procs[p]) && UndoSafe(s.procs[p]) && Compatible(s.procs[p], s.procs[q]);
    assert (s.procs[p].vpc, s.procs[p].attachment) in s.links;
  }

  /** So nobody moves or deletes the instance. */
  lemma NoMoveNoDelete(s: State, step: Step, pid: nat, p: nat, arg: int)
    requires Guarded(s, p, arg) && pid in s.procs && CanStep(s, step, s.procs[pid])
    requires s.procs[pid].vpc == s.procs[p].vpc
    ensures !step.Move? && !s.procs[pid].phase.UndoDelete?
  {
    var z := s.procs[pid];
    assert Faithful(s, z, arg) && LinksSafe(s, z) && UndoSafe(z);
    if pid != p && !z.phase.Gone? {
      NotAlone(s, p, pid);
    }
  }

  /** What a process's step does to the API, in the eyes of the claim. */
  lemma ClaimStays(s: State, step: Step, pid: nat, p: nat, arg: int)
    requires Guarded(s, p, arg) && pid in s.procs && CanStep(s, step, s.procs[pid])
    ensures var t := Moved(s, step, pid);
            && HoldsArgument(t.api, t.router, s.procs[p].vpc, arg)
            && forall r | r in t.late :: Harmless(r, t.router, s.procs[p].vpc, arg)
  {
    if s.procs[pid].vpc == s.procs[p].vpc {
      assert Faithful(s, s.procs[pid], arg);
      NoMoveNoDelete(s, step, pid, p, arg);
    }
  }

  lemma OwnFaithful(s: State, step: Step, pid: nat, p: nat, arg: int)
    requires Guarded(s, p, arg) && pid in s.procs && CanStep(s, step, s.procs[pid])
    requires s.procs[pid].vpc == s.procs[p].vpc
    ensures var t := Moved(s, step, pid); Faithful(t, t.procs[pid], arg)
  {
    assert Faithful(s, s.procs[pid], arg);
    NoMoveNoDelete(s, step, pid, p, arg);
  }

  lemma OtherFaithful(s: State, step: Step, pid: nat, q: nat, arg: int)
    requires LocksOk(s) && pid in s.procs && q in s.procs && q != pid && CanStep(s, step, s.procs[pid])
    requires Faithful(s, s.procs[q], arg)
    ensures Faithful(Moved(s, step, pid), s.procs[q], arg)
  {
    assert Compatible(s.procs[pid], s.procs[q]);
    if s.procs[q].phase.Written? && !HoldsArgumentLock(s.procs[pid].phase) {
      DeleteFrees(s.api, s.router, s.procs[pid].vpc);
    }
  }

  lemma GuardedMove(s: State, step: Step, pid: nat, p: nat, arg: int)
    requires Guarded(s, p, arg) && pid in s.procs && CanStep(s, step, s.procs[pid])
    requires ClaimOf(Moved(s, step, pid).procs[p]) == Some(arg)
    ensures Guarded(Moved(s, step, pid), p, arg)
  {
    LocksMove(s, step, pid);
    ClaimStays(s, step, pid, p, arg);
    var t := Moved(s, step, pid);
    forall q | q in t.procs && t.procs[q].vpc == t.procs[p].vpc
      ensures Faithful(t, t.procs[q], arg)
    {
      if q == pid {
        OwnFaithful(s, step, pid, p, arg);
      } else {
        OtherFaithful(s, step, pid, q, arg);
      }
    }
  }

  lemma UntakenLands(s: State, r: Request, v: string, x: int)
    requires r in s.late && Untaken(s, v, x)
    ensures Untaken(Landed(s, r), v, x)
  {
    assert !Takes(r, v, x);
    if r.Delete? {
      DeleteFrees(s.api, s.router, r.vpc);
    }
  }

  lemma GuardedLand(s: State, r: Request, p: nat, arg: int)
    requires Guarded(s, p, arg) && r in s.late
    ensures Guarded(Landed(s, r), p, arg)
  {
    var t := Landed(s, r);
    LocksStep(s, Land(r), 0, t);
    assert Harmless(r, s.router, s.procs[p].vpc, arg);
    forall q | q in t.procs && t.procs[q].vpc == t.procs[p].vpc
      ensures Faithful(t, t.procs[q], arg)
    {
      assert Faithful(s, s.procs[q], arg);
      if s.procs[q].phase.Written? && s.procs[q].phase.ours {
        UntakenLands(s, r, s.procs[q].vpc, s.procs[q].phase.arg);
      }
    }
  }

  lemma GuardedOthers(s: State, api: View, pid: nat, t: State, p: nat, arg: int)
    requires Guarded(s, p, arg) && Next(s, OtherRouters(api), pid, t)
    ensures Guarded(t, p, arg)
  {
    LocksStep(s, OtherRouters(api), pid, t);
    assert OfThisNode(s, api, s.procs[p].vpc);
    assert Agree(s.api, api, s.router);
    forall q | q in t.procs && t.procs[q].vpc == t.procs[p].vpc
      ensures Faithful(t, t.procs[q], arg)
    {
      assert Faithful(s, s.procs[q], arg);
      SameUnder(s.api, api, s.router);
    }
  }

  lemma GuardedStep(s: State, step: Step, pid: nat, t: State, p: nat, arg: int)
    requires Guarded(s, p, arg) && Next(s, step, pid, t) && p in t.procs && ClaimOf(t.procs[p]) == Some(arg)
    ensures Guarded(t, p, arg)
  {
    LocksStep(s, step, pid, t);
    if IsProcessStep(step) {
      GuardedMove(s, step, pid, p, arg);
    } else if step.Land? {
      GuardedLand(s, step.request, p, arg);
    } else if step.OtherRouters? {
      GuardedOthers(s, step.others, pid, t, p, arg);
    } else {
      forall q | q in t.procs && t.procs[q].vpc == t.procs[p].vpc
        ensures Faithful(t, t.procs[q], arg)
      {
        assert q in s.procs ==> Faithful(s, s.procs[q], arg);
      }
    }
  }

  lemma {:induction false} GuardedPath(run: seq<State>, steps: seq<Step>, pids: seq<nat>, k: nat, p: nat, arg: int)
    requires Path(run, steps, pids) && k < |run| && Claiming(run, p, arg) && Guarded(run[0], p, arg)
    ensures Guarded(run[k], p, arg)
  {
    if k > 0 {
      GuardedPath(run, steps, pids, k - 1, p, arg);
      GuardedStep(run[k - 1], steps[k - 1], pids[k - 1], run[k], p, arg);
    }
  }

  // ---- Exactly when it survives

  /** The claim's instance is there in every continuation that does not end it. */
  ghost predicate SurvivesAll(s: State, p: nat, arg: int) {
    forall run: seq<State>, steps: seq<Step>, pids: seq<nat>
      | Path(run, steps, pids) && run[0] == s && Claiming(run, p, arg) :: AlwaysThere(run, p, arg)
  }

  /** Process q, an ADD of the VPC, has just created its instance, and the write r
      gives q's value to another VPC. */
  predicate Threatens(s: State, v: string, q: nat, r: Request) {
    && q in s.procs && s.procs[q].vpc == v && s.procs[q].phase.Written? && s.procs[q].phase.ours
    && r in s.late && Takes(r, v, s.procs[q].phase.arg)
  }

  /** And can do so now, leaving q another value to move to. */
  ghost predicate Strikes(s: State, v: string, q: nat, r: Request, arg: int) {
    && Threatens(s, v, q, r) && Effective(s, r)
    && exists c :: c != arg && IsLowestFree(Landed(s, r).api, s.router, v, c)
  }

  ghost predicate ClaimThere(s: State, p: nat, arg: int) {
    && p in s.procs && ClaimOf(s.procs[p]) == Some(arg) && HoldsArgument(s.api, s.router, s.procs[p].vpc, arg)
  }

  ghost predicate AllHarmless(s: State, v: string, arg: int) {
    forall r | r in s.late :: Harmless(r, s.router, v, arg)
  }

  ghost predicate AllFaithful(s: State, v: string, arg: int) {
    forall q | q in s.procs && s.procs[q].vpc == v :: Faithful(s, s.procs[q], arg)
  }

  lemma {:induction false} RunLocks(run: seq<State>, steps: seq<Step>, pids: seq<nat>, k: nat)
    requires Run(run, steps, pids) && k < |run|
    ensures LocksOk(run[k])
  {
    if k > 0 {
      RunLocks(run, steps, pids, k - 1);
      LocksStep(run[k - 1], steps[k - 1], pids[k - 1], run[k]);
    }
  }

  lemma GuardedSurvives(s: State, p: nat, arg: int)
    requires Guarded(s, p, arg)
    ensures SurvivesAll(s, p, arg)
  {
    forall run: seq<State>, steps: seq<Step>, pids: seq<nat>
      | Path(run, steps, pids) && run[0] == s && Claiming(run, p, arg)
      ensures AlwaysThere(run, p, arg)
    {
      forall i | 0 <= i < |run|
        ensures p in run[i].procs && HoldsArgument(run[i].api, run[i].router, run[i].procs[p].vpc, arg)
      {
        GuardedPath(run, steps, pids, i, p, arg);
      }
    }
  }

  lemma LostNow(s: State, p: nat, arg: int)
    requires p in s.procs && ClaimOf(s.procs[p]) == Some(arg)
    requires !HoldsArgument(s.api, s.router, s.procs[p].vpc, arg)
    ensures !SurvivesAll(s, p, arg)
  {
    var run := [s];
    assert Path(run, [], []) && Claiming(run, p, arg);
    assert !HoldsArgument(run[0].api, run[0].router, run[0].procs[p].vpc, arg);
  }

  lemma LostLater(s: State, step: Step, pid: nat, t: State, p: nat, arg: int)
    requires p in s.procs && ClaimOf(s.procs[p]) == Some(arg) && Next(s, step, pid, t) && !SurvivesAll(t, p, arg)
    ensures !SurvivesAll(s, p, arg)
  {
    var run: seq<State>, steps: seq<Step>, pids: seq<nat> :|
      Path(run, steps, pids) && run[0] == t && Claiming(run, p, arg) && !AlwaysThere(run, p, arg);
    var path, more, who := [s] + run, [step] + steps, [pid] + pids;
    forall i | 0 <= i < |more|
      ensures Next(path[i], more[i], who[i], path[i + 1])
    {
      if i > 0 {
        assert Next(run[i - 1], steps[i - 1], pids[i - 1], run[i]);
      }
    }
    var i :| 0 <= i < |run| && !HoldsArgument(run[i].api, run[i].router, run[i].procs[p].vpc, arg);
    assert path[i + 1] == run[i];
    assert Path(path, more, who) && Claiming(path, p, arg) && !AlwaysThere(path, p, arg);
  }

  lemma HarmLoses(s: State, p: nat, arg: int, r: Request)
    requires ClaimThere(s, p, arg) && r in s.late && !Harmless(r, s.router, s.procs[p].vpc, arg)
    ensures !SurvivesAll(s, p, arg)
  {
    LostNow(Landed(s, r), p, arg);
    LostLater(s, Land(r), 0, Landed(s, r), p, arg);
  }

  /** An ADD that may move the instance and sees a collision moves it. */
  lemma CollisionLoses(s: State, p: nat, arg: int, q: nat, c: int)
    requires ClaimThere(s, p, arg) && q in s.procs && s.procs[q].vpc == s.procs[p].vpc
    requires s.procs[q].phase.Colliding? && s.procs[q].phase.ours
    requires c != arg && IsLowestFree(s.api, s.router, s.procs[p].vpc, c)
    ensures !SurvivesAll(s, p, arg)
  {
    var t := Moved(s, Move(c), q);
    var u := Moved(t, Put, q);
    assert t.procs[q].phase == Allocated(c, true) && u.api[s.procs[p].vpc].vrfID == c;
    LostNow(u, p, arg);
    LostLater(t, Put, q, u, p, arg);
    LostLater(s, Move(c), q, t, p, arg);
  }

  lemma StrikeLoses(s: State, p: nat, arg: int, q: nat, r: Request)
    requires ClaimThere(s, p, arg) && Strikes(s, s.procs[p].vpc, q, r, arg)
    ensures !SurvivesAll(s, p, arg)
  {
    var v, x := s.procs[p].vpc, s.procs[q].phase.arg;
    var t := Landed(s, r);
    var c :| c != arg && IsLowestFree(t.api, s.router, v, c);
    assert HoldsArgument(t.api, t.router, r.vpc, x) && HeldByOther(t.api, t.router, v, x);
    var u := Moved(t, Check, q);
    assert u.procs[q].phase == Colliding(x, true);
    CollisionLoses(u, p, arg, q, c);
    LostLater(t, Check, q, u, p, arg);
    LostLater(s, Land(r), 0, t, p, arg);
  }

  /** In every state of every run, whatever has landed before: the claim survives
      everything that can follow if each late request leaves its instance as it is
      and no ADD of its VPC is to write or move it; and it does not if some request
      changes its instance, or one takes the value an ADD has just created it with
      and leaves that ADD another to move to. */
  lemma SurvivesWhatever(run: seq<State>, steps: seq<Step>, pids: seq<nat>, k: nat, p: nat, arg: int)
    requires Run(run, steps, pids) && k < |run| && ClaimThere(run[k], p, arg)
    ensures var s, v := run[k], run[k].procs[p].vpc;
            && (AllHarmless(s, v, arg) && AllFaithful(s, v, arg) ==> SurvivesAll(s, p, arg))
            && (!AllHarmless(s, v, arg) || (exists q, r :: Strikes(s, v, q, r, arg)) ==> !SurvivesAll(s, p, arg))
  {
    var s, v := run[k], run[k].procs[p].vpc;
    RunLocks(run, steps, pids, k);
    if AllHarmless(s, v, arg) && AllFaithful(s, v, arg) {
      GuardedSurvives(s, p, arg);
    }
    if !AllHarmless(s, v, arg) {
      var r :| r in s.late && !Harmless(r, s.router, v, arg);
      HarmLoses(s, p, arg, r);
    }
    if q, r :| Strikes(s, v, q, r, arg) {
      StrikeLoses(s, p, arg, q, r);
    }
  }

  lemma InvFaithful(s: State, p: nat, arg: int)
    requires Inv(s) && ClaimThere(s, p, arg)
    ensures var v := s.procs[p].vpc;
            && (AllHarmless(s, v, arg) <==> Delete(v) !in s.late)
            && ((forall q, r :: !Threatens(s, v, q, r)) ==> AllFaithful(s, v, arg))
  {
    var v := s.procs[p].vpc;
    forall r | r in s.late && r != Delete(v)
      ensures Harmless(r, s.router, v, arg)
    {
      assert RequestSafe(s.router, r);
    }
    if Delete(v) in s.late {
      assert !Harmless(Delete(v), s.router, v, arg);
    }
    if forall q, r :: !Threatens(s, v, q, r) {
      forall q | q in s.procs && s.procs[q].vpc == v
        ensures Faithful(s, s.procs[q], arg)
      {
        assert ArgumentSafe(s, s.procs[q]) && FlagsSafe(s.procs[q]);
        assert forall r | r in s.late :: !Threatens(s, v, q, r);
      }
    }
  }

  /** Where late writes have landed safely so far, and whether or not they do from
      here on: a claim that is there survives everything that can follow exactly
      when no delete of its VPC is outstanding and no outstanding write takes the
      value from an ADD that has just created its instance. */
  lemma SurvivesExactly(run: seq<State>, steps: seq<Step>, pids: seq<nat>, k: nat, p: nat, arg: int)
    requires Run(run, steps, pids) && k < |run| && AllBenign(run, steps, k) && ClaimThere(run[k], p, arg)
    requires forall q, r | Threatens(run[k], run[k].procs[p].vpc, q, r) ::
               Strikes(run[k], run[k].procs[p].vpc, q, r, arg)
    ensures var s, v := run[k], run[k].procs[p].vpc;
            SurvivesAll(s, p, arg) <==> Delete(v) !in s.late && forall q, r :: !Threatens(s, v, q, r)
  {
    RunInv(run, steps, pids, k);
    InvFaithful(run[k], p, arg);
    SurvivesWhatever(run, steps, pids, k, p, arg);
  }
}
