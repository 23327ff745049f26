/** CNI ADDs of one node as concurrent processes: enslaving a host link under
    the VRF lock (internal/cni/ops_add.go), claiming the VPC's Argument under
    the Argument lock (internal/cnibgp/argument.go), retrying, and rolling a
    failed ADD back under the VRF lock alone (internal/cnibgp/resource.go).
    Each step is one lock operation, one API call or one kernel change.

    A client can give up on a write or a delete before it is answered. Such a
    request stays outstanding, and the API server may apply it at any later
    time, once the locks it was sent under are long released. */
module ClaimProtocol {
  import opened Common
  import opened Instances

  /** Where an ADD is. Allocated is about to create or update its instance;
      ours says this attempt created it. */
  datatype Phase =
    | Starting
    | Enslaving
    | Enslaved
    | Ready
    | Listing
    | Allocated(arg: int, ours: bool)
    | Waiting
    | Written(arg: int, ours: bool)
    | Colliding(arg: int, ours: bool)
    | Claimed(arg: int)
    | Done(arg: int)
    | Undo
    | UndoLocked
    | UndoDelete
    | Over
    | Gone

  /** A lock is held by the process whose phase is under it. */
  predicate HoldsArgumentLock(ph: Phase) {
    ph.Listing? || ph.Allocated? || ph.Waiting? || ph.Written? || ph.Colliding?
  }

  predicate HoldsVrfLock(ph: Phase) {
    ph.Enslaving? || ph.Enslaved? || ph.UndoLocked? || ph.UndoDelete?
  }

  /** The host link exists from its enslavement until the ADD ends. */
  predicate Linked(ph: Phase) {
    !ph.Starting? && !ph.Enslaving? && !ph.Over? && !ph.Gone?
  }

  /** kept is the Argument of an earlier ADD of the same attachment that
      succeeded and whose link is still enslaved. */
  datatype Process = Process(vpc: string, attachment: string, phase: Phase, created: bool, kept: Option<int>)

  /** A request that was not answered. The API server refuses a write to an
      object that is no longer as it was read. */
  datatype Request =
    | Write(vpc: string, arg: int, was: Option<Instance>)
    | Delete(vpc: string)

  /** links are the host links enslaved to a VRF, as (VPC, attachment). The
      instance of a VPC is named by it: one per VPC on this node. */
  datatype State = State(router: string, api: View, links: set<(string, string)>, procs: map<nat, Process>,
                         late: multiset<Request>)

  function Lookup(api: View, vpc: string): Option<Instance> {
    if vpc in api then Some(api[vpc]) else None
  }

  /** siblingHostLinks: a link of another attachment in the VPC's VRF. */
  ghost predicate Siblings(s: State, vpc: string, attachment: string) {
    exists l | l in s.links :: l.0 == vpc && l.1 != attachment
  }

  datatype Step =
    | Spawn(vpc: string, attachment: string)
    | LockVrf
    | Enslave
    | UnlockVrf
    | LockArgument
    | Allocate(chosen: int)
    | Put
    | Send          // a Put that is not answered
    | Check
    | Move(chosen: int)
    | FailAttempt
    | Finish
    | Again         // the same ADD repeated by the runtime
    | GiveUp
    | SkipUndo
    | LockUndo
    | KeepInstance
    | CheckAlone
    | DeleteInstance
    | DeleteFails
    | DeleteUnanswered
    | Crash(sent: bool)
    | Unlink
    | Land(request: Request)
    | Lapse(request: Request)
    | OtherRouters(others: View)

  // ---- One process's step

  ghost predicate ArgumentLockFree(s: State) {
    forall q | q in s.procs :: !HoldsArgumentLock(s.procs[q].phase)
  }

  ghost predicate VrfLockFree(s: State) {
    forall q | q in s.procs :: !HoldsVrfLock(s.procs[q].phase)
  }

  predicate Ended(ph: Phase) {
    ph.Done? || ph.Over? || ph.Gone?
  }

  ghost predicate CanStep(s: State, step: Step, p: Process) {
    var ph := p.phase;
    match step
    case LockVrf => ph.Starting? && VrfLockFree(s)
    case Enslave => ph.Enslaving?
    case UnlockVrf => ph.Enslaved?
    case LockArgument => ph.Ready? && ArgumentLockFree(s)
    case Allocate(arg) => ph.Listing? && Allocates(s.api, s.router, p.vpc, arg)
    case Put => ph.Allocated?
    case Send => ph.Allocated?
    case Check => ph.Written?
    case Move(arg) =>
      && ph.Colliding? && (ph.ours || (p.created && !Siblings(s, p.vpc, p.attachment)))
      && IsLowestFree(s.api, s.router, p.vpc, arg)
    case FailAttempt => HoldsArgumentLock(ph) || ph.Claimed?
    case Finish => ph.Claimed?
    case Again => ph.Done?
    case GiveUp => ph.Ready?
    case SkipUndo => ph.Undo?
    case LockUndo => ph.Undo? && p.created && VrfLockFree(s)
    case KeepInstance => ph.UndoLocked?
    case CheckAlone => ph.UndoLocked? && !Siblings(s, p.vpc, p.attachment)
    case DeleteInstance => ph.UndoDelete?
    case DeleteFails => ph.UndoDelete?
    case DeleteUnanswered => ph.UndoDelete?
    // The kernel drops a dead process's file locks.
    case Crash(_) => !Ended(ph)
    case Unlink => ph.Over? || ph.Done?
    case _ => false
  }

  ghost function NewPhase(s: State, step: Step, p: Process): Phase
    requires CanStep(s, step, p)
  {
    match step
    case LockVrf => Enslaving
    case Enslave => Enslaved
    case UnlockVrf => Ready
    case LockArgument => Listing
    case Allocate(arg) => Allocated(arg, false)
    case Put => Written(p.phase.arg, p.phase.ours || p.vpc !in s.api)
    case Send => Waiting
    case Check =>
      if HeldByOther(s.api, s.router, p.vpc, p.phase.arg) then Colliding(p.phase.arg, p.phase.ours)
      else Claimed(p.phase.arg)
    case Move(arg) => Allocated(arg, true)
    case FailAttempt => Ready
    case Finish => Done(p.phase.arg)
    case Again => Starting
    case GiveUp => Undo
    case LockUndo => UndoLocked
    case CheckAlone => UndoDelete
    case Unlink => Gone
    case _ => Over
  }

  ghost function NewProcess(s: State, step: Step, p: Process): Process
    requires CanStep(s, step, p)
  {
    Process(p.vpc, p.attachment, NewPhase(s, step, p),
            if step.Put? then p.created || p.vpc !in s.api else p.created && !step.Again?,
            if step.Finish? then Some(p.phase.arg) else if step.Unlink? then None else p.kept)
  }

  function NewApi(s: State, step: Step, p: Process): View
    requires step.Put? ==> p.phase.Allocated?
  {
    if step.Put? then s.api[p.vpc := Instance(Some(s.router), p.phase.arg)]
    else if step.DeleteInstance? then s.api - {p.vpc}
    else s.api
  }

  function NewLinks(s: State, step: Step, p: Process): set<(string, string)> {
    if step.Enslave? then s.links + {(p.vpc, p.attachment)}
    else if step.Unlink? then s.links - {(p.vpc, p.attachment)}
    else s.links
  }

  /** The request a step leaves outstanding. */
  function Unanswered(s: State, step: Step, p: Process): multiset<Request> {
    if p.phase.Allocated? && (step.Send? || step == Crash(true)) then
      multiset{Write(p.vpc, p.phase.arg, Lookup(s.api, p.vpc))}
    else if p.phase.UndoDelete? && (step.DeleteUnanswered? || step == Crash(true)) then multiset{Delete(p.vpc)}
    else multiset{}
  }

  ghost function Moved(s: State, step: Step, pid: nat): State
    requires pid in s.procs && CanStep(s, step, s.procs[pid])
  {
    var p := s.procs[pid];
    State(s.router, NewApi(s, step, p), NewLinks(s, step, p), s.procs[pid := NewProcess(s, step, p)],
          s.late + Unanswered(s, step, p))
  }

  // ---- All steps

  /** A landing write changes something. */
  predicate Effective(s: State, r: Request) {
    r.Write? && Lookup(s.api, r.vpc) == r.was
  }

  function Landed(s: State, r: Request): State {
    s.(late := s.late - multiset{r},
       api := if r.Delete? then s.api - {r.vpc}
              else if Effective(s, r) then s.api[r.vpc := Instance(Some(s.router), r.arg)]
              else s.api)
  }

  /** What writers for other routers leave alone. */
  ghost predicate OfThisNode(s: State, api: View, n: string) {
    Under(s.api, s.router, n) || Under(api, s.router, n) || exists q | q in s.procs :: s.procs[q].vpc == n
  }

  ghost predicate Next(s: State, step: Step, pid: nat, t: State) {
    if step.Spawn? then
      // ADDs of one attachment do not overlap.
      && pid !in s.procs && (step.vpc, step.attachment) !in s.links
      && (forall q | q in s.procs :: Elsewhere(s.procs[q], step.vpc, step.attachment))
      && t == s.(procs := s.procs[pid := Process(step.vpc, step.attachment, Starting, false, None)])
    else if step.OtherRouters? then
      && (forall n | n in s.api || n in step.others :: OfThisNode(s, step.others, n) ==>
            n in s.api && n in step.others && s.api[n] == step.others[n])
      && t == s.(api := step.others)
    else if step.Land? then step.request in s.late && t == Landed(s, step.request)
    else if step.Lapse? then step.request in s.late && t == s.(late := s.late - multiset{step.request})
    else pid in s.procs && CanStep(s, step, s.procs[pid]) && t == Moved(s, step, pid)
  }

  predicate Elsewhere(p: Process, vpc: string, attachment: string) {
    p.phase.Gone? || p.vpc != vpc || p.attachment != attachment
  }

  ghost predicate Init(s: State) {
    s.procs == map[] && s.late == multiset{} && DistinctArguments(s.api, s.router)
  }

  // ---- Late writes

  /** A process that has chosen or written its value is not surprised by r. */
  predicate ChoiceKept(p: Process, r: Request)
    requires r.Write?
  {
    if p.phase.Allocated? then (p.vpc == r.vpc <==> p.phase.arg == r.arg)
    else p.phase.Written? && p.vpc != r.vpc ==> p.phase.arg != r.arg
  }

  /** A late write lands on a value no other instance holds and the holder of the
      Argument lock has not chosen for another. */
  ghost predicate LandsSafely(s: State, r: Request)
    requires r.Write?
  {
    && !HeldByOther(s.api, s.router, r.vpc, r.arg)
    && forall q | q in s.procs :: ChoiceKept(s.procs[q], r)
  }

  ghost predicate Benign(s: State, step: Step) {
    step.Land? && Effective(s, step.request) ==> LandsSafely(s, step.request)
  }

  // ---- The invariant

  /** The value a lock holder is about to write, or wrote, is free for it. */
  ghost predicate ArgumentSafe(s: State, p: Process) {
    && (p.phase.Allocated? || p.phase.Written? ==> !HeldByOther(s.api, s.router, p.vpc, p.phase.arg))
    && (p.phase.Allocated? && Under(s.api, s.router, p.vpc) ==> s.api[p.vpc].vrfID == p.phase.arg)
  }

  ghost predicate LinksSafe(s: State, p: Process) {
    && (Linked(p.phase) || p.kept.Some? ==> (p.vpc, p.attachment) in s.links)
    && (p.phase.UndoDelete? ==> !Siblings(s, p.vpc, p.attachment))
  }

  predicate UndoSafe(p: Process) {
    && (p.phase.UndoLocked? || p.phase.UndoDelete? ==> p.created)
    && (p.phase.Gone? ==> p.kept.None?)
  }

  predicate FlagsSafe(p: Process) {
    !p.phase.Colliding? && (p.phase.Allocated? ==> !p.phase.ours) && UndoSafe(p)
  }

  /** Two processes never hold one lock, nor work on one attachment. */
  predicate Compatible(p: Process, q: Process) {
    && !(HoldsArgumentLock(p.phase) && HoldsArgumentLock(q.phase))
    && !(HoldsVrfLock(p.phase) && HoldsVrfLock(q.phase))
    && (p.phase.Gone? || q.phase.Gone? || p.vpc != q.vpc || p.attachment != q.attachment)
  }

  /** A write that updates an instance of this router keeps its value. */
  predicate RequestSafe(router: string, r: Request) {
    r.Write? && r.was.Some? && r.was.value.routerRef == Some(router) ==> r.was.value.vrfID == r.arg
  }

  ghost predicate ProcessesOk(s: State) {
    && (forall p | p in s.procs :: ArgumentSafe(s, s.procs[p]))
    && (forall p | p in s.procs :: LinksSafe(s, s.procs[p]))
    && (forall p | p in s.procs :: FlagsSafe(s.procs[p]))
  }

  ghost predicate PairsOk(s: State) {
    forall p, q | p in s.procs && q in s.procs && p != q :: Compatible(s.procs[p], s.procs[q])
  }

  ghost predicate Inv(s: State) {
    && DistinctArguments(s.api, s.router)
    && ProcessesOk(s) && PairsOk(s)
    && forall r | r in s.late :: RequestSafe(s.router, r)
  }

  lemma SpawnInv(s: State, vpc: string, att: string, pid: nat, t: State)
    requires Inv(s) && Next(s, Spawn(vpc, att), pid, t)
    ensures Inv(t)
  {
    assert forall v, a :: Siblings(t, v, a) == Siblings(s, v, a);
  }

  lemma OtherRoutersInv(s: State, api: View, pid: nat, t: State)
    requires Inv(s) && Next(s, OtherRouters(api), pid, t)
    ensures Inv(t)
  {
    SameUnder(s.api, t.api, s.router);
    assert forall v, a :: Siblings(t, v, a) == Siblings(s, v, a);
  }

  /** The views agree on the router's instances. */
  ghost predicate Agree(a: View, b: View, router: string) {
    forall n :: (Under(a, router, n) <==> Under(b, router, n)) && (Under(a, router, n) ==> a[n] == b[n])
  }

  lemma SameUnder(a: View, b: View, router: string)
    requires Agree(a, b, router)
    ensures forall v, arg :: HeldByOther(a, router, v, arg) <==> HeldByOther(b, router, v, arg)
    ensures DistinctArguments(a, router) ==> DistinctArguments(b, router)
  {
    forall v, arg
      ensures HeldByOther(a, router, v, arg) <==> HeldByOther(b, router, v, arg)
    {
      SameHolders(a, b, router, v, arg);
      SameHolders(b, a, router, v, arg);
    }
  }

  lemma SameHolders(a: View, b: View, router: string, v: string, arg: int)
    requires Agree(a, b, router)
    ensures HeldByOther(a, router, v, arg) ==> HeldByOther(b, router, v, arg)
  {
    if HeldByOther(a, router, v, arg) {
      var n :| n in a && n != v && HoldsArgument(a, router, n, arg);
      assert HoldsArgument(b, router, n, arg);
    }
  }

  predicate IsProcessStep(step: Step) {
    !step.Spawn? && !step.OtherRouters? && !step.Land? && !step.Lapse?
  }

  /** What a step does to its own process. */
  lemma PhaseMoves(s: State, step: Step, p: Process)
    requires CanStep(s, step, p)
    ensures var t := NewProcess(s, step, p);
            && (HoldsArgumentLock(t.phase) ==> HoldsArgumentLock(p.phase) || ArgumentLockFree(s))
            && (HoldsVrfLock(t.phase) ==> HoldsVrfLock(p.phase) || VrfLockFree(s))
            && !p.phase.Gone? && (t.phase.Gone? <==> step.Unlink?)
            && (Linked(t.phase) ==> Linked(p.phase) || step.Enslave?)
            && (t.kept.Some? ==> p.kept.Some? || step.Finish?)
            && (t.phase.UndoDelete? ==> step.CheckAlone?)
            && (t.phase.UndoDelete? || t.phase.UndoLocked? ==> p.phase.UndoLocked? || step.LockUndo?)
            && (t.phase.Allocated? ==> step.Allocate? || step.Move?)
            && (t.phase.Written? ==> step.Put?)
            && (t.phase.Colliding? ==> step.Check? && HeldByOther(s.api, s.router, p.vpc, p.phase.arg))
  {
  }

  lemma PairsMove(s: State, step: Step, pid: nat)
    requires PairsOk(s) && pid in s.procs && CanStep(s, step, s.procs[pid])
    ensures PairsOk(Moved(s, step, pid))
  {
    PhaseMoves(s, step, s.procs[pid]);
    var t := Moved(s, step, pid);
    forall q | q in s.procs && q != pid
      ensures Compatible(t.procs[pid], s.procs[q]) && Compatible(s.procs[q], t.procs[pid])
    {
      assert Compatible(s.procs[pid], s.procs[q]);
    }
  }

  lemma LinksMove(s: State, step: Step, pid: nat, q: nat)
    requires PairsOk(s) && pid in s.procs && q in s.procs && CanStep(s, step, s.procs[pid])
    requires LinksSafe(s, s.procs[pid]) && LinksSafe(s, s.procs[q]) && UndoSafe(s.procs[q])
    ensures var t := Moved(s, step, pid); LinksSafe(t, t.procs[q])
  {
    PhaseMoves(s, step, s.procs[pid]);
    assert q != pid ==> Compatible(s.procs[pid], s.procs[q]);
  }

  lemma FlagsMove(s: State, step: Step, p: Process)
    requires CanStep(s, step, p) && ArgumentSafe(s, p) && FlagsSafe(p)
    ensures FlagsSafe(NewProcess(s, step, p))
  {
    PhaseMoves(s, step, p);
  }

  /** A value is chosen free. */
  lemma ChosenFree(s: State, step: Step, p: Process)
    requires CanStep(s, step, p) && DistinctArguments(s.api, s.router) && FlagsSafe(p)
    requires step.Allocate?
    ensures ArgumentSafe(s, NewProcess(s, step, p))
  {
  }

  /** Writing a value no other instance has, over nothing or the same value. */
  lemma WriteDistinct(api: View, router: string, vpc: string, arg: int)
    requires DistinctArguments(api, router) && !HeldByOther(api, router, vpc, arg)
    ensures DistinctArguments(api[vpc := Instance(Some(router), arg)], router)
    ensures forall v, a | v != vpc && a != arg ::
              HeldByOther(api[vpc := Instance(Some(router), arg)], router, v, a) ==> HeldByOther(api, router, v, a)
    ensures !HeldByOther(api[vpc := Instance(Some(router), arg)], router, vpc, arg)
  {
    var t := api[vpc := Instance(Some(router), arg)];
    forall v, a | v != vpc && a != arg && HeldByOther(t, router, v, a)
      ensures HeldByOther(api, router, v, a)
    {
      var n :| n in t && n != v && HoldsArgument(t, router, n, a);
      assert HoldsArgument(api, router, n, a);
    }
    if HeldByOther(t, router, vpc, arg) {
      var n :| n in t && n != vpc && HoldsArgument(t, router, n, arg);
      assert HoldsArgument(api, router, n, arg);
    }
  }

  lemma DeleteFrees(api: View, router: string, vpc: string)
    ensures DistinctArguments(api, router) ==> DistinctArguments(api - {vpc}, router)
    ensures forall v, a :: HeldByOther(api - {vpc}, router, v, a) ==> HeldByOther(api, router, v, a)
  {
    forall v, a | HeldByOther(api - {vpc}, router, v, a)
      ensures HeldByOther(api, router, v, a)
    {
      var n :| n in api - {vpc} && n != v && HoldsArgument(api - {vpc}, router, n, a);
      assert HoldsArgument(api, router, n, a);
    }
  }

  /** A write of arg to vpc leaves another process's choice safe. */
  lemma SafeAfterWrite(s: State, vpc: string, arg: int, q: Process)
    requires DistinctArguments(s.api, s.router) && !HeldByOther(s.api, s.router, vpc, arg)
    requires ArgumentSafe(s, q) && ChoiceKept(q, Write(vpc, arg, None))
    ensures ArgumentSafe(s.(api := s.api[vpc := Instance(Some(s.router), arg)]), q)
  {
    WriteDistinct(s.api, s.router, vpc, arg);
  }

  lemma SafeAfterDelete(s: State, vpc: string, q: Process)
    requires ArgumentSafe(s, q)
    ensures ArgumentSafe(s.(api := s.api - {vpc}), q)
  {
    DeleteFrees(s.api, s.router, vpc);
  }

  lemma ArgumentsMove(s: State, step: Step, pid: nat, q: nat)
    requires Inv(s) && pid in s.procs && q in s.procs && CanStep(s, step, s.procs[pid])
    ensures var t := Moved(s, step, pid); ArgumentSafe(t, t.procs[q])
  {
    var p := s.procs[pid];
    PhaseMoves(s, step, p);
    assert ArgumentSafe(s, p) && ArgumentSafe(s, s.procs[q]) && FlagsSafe(p);
    assert q != pid ==> Compatible(p, s.procs[q]);
    if step.Put? {
      WriteDistinct(s.api, s.router, p.vpc, p.phase.arg);
    } else if step.DeleteInstance? {
      SafeAfterDelete(s, p.vpc, s.procs[q]);
    } else if step.Allocate? {
      ChosenFree(s, step, p);
    }
  }

  /** Every step of a process keeps the invariant. */
  lemma ProcessInv(s: State, step: Step, pid: nat)
    requires Inv(s) && pid in s.procs && CanStep(s, step, s.procs[pid])
    ensures Inv(Moved(s, step, pid))
  {
    var p, t := s.procs[pid], Moved(s, step, pid);
    assert ArgumentSafe(s, p) && LinksSafe(s, p) && FlagsSafe(p);
    PairsMove(s, step, pid);
    forall q | q in t.procs
      ensures ArgumentSafe(t, t.procs[q]) && LinksSafe(t, t.procs[q]) && FlagsSafe(t.procs[q])
    {
      ArgumentsMove(s, step, pid, q);
      LinksMove(s, step, pid, q);
      FlagsMove(s, step, p);
    }
    if step.Put? {
      WriteDistinct(s.api, s.router, p.vpc, p.phase.arg);
    } else if step.DeleteInstance? {
      DeleteFrees(s.api, s.router, p.vpc);
    }
    assert forall r | r in Unanswered(s, step, p) :: RequestSafe(s.router, r);
  }

  /** A late write that lands safely keeps it, and so does a late delete. */
  lemma LandInv(s: State, r: Request)
    requires Inv(s) && r in s.late && (Effective(s, r) ==> LandsSafely(s, r))
    ensures Inv(Landed(s, r))
  {
    var t := Landed(s, r);
    assert forall v, a :: Siblings(t, v, a) == Siblings(s, v, a);
    forall q | q in t.procs
      ensures ArgumentSafe(t, t.procs[q])
    {
      assert ArgumentSafe(s, s.procs[q]);
      if r.Delete? {
        SafeAfterDelete(s, r.vpc, s.procs[q]);
      } else if Effective(s, r) {
        assert ChoiceKept(s.procs[q], r);
        SafeAfterWrite(s, r.vpc, r.arg, s.procs[q]);
      }
    }
    if r.Delete? {
      DeleteFrees(s.api, s.router, r.vpc);
    } else if Effective(s, r) {
      WriteDistinct(s.api, s.router, r.vpc, r.arg);
    }
  }

  lemma LapseInv(s: State, r: Request)
    requires Inv(s) && r in s.late
    ensures Inv(s.(late := s.late - multiset{r}))
  {
    var t := s.(late := s.late - multiset{r});
    assert forall v, a :: Siblings(t, v, a) == Siblings(s, v, a);
  }

  lemma NextInv(s: State, step: Step, pid: nat, t: State)
    requires Inv(s) && Next(s, step, pid, t) && Benign(s, step)
    ensures Inv(t) && t.router == s.router
  {
    if step.Spawn? {
      SpawnInv(s, step.vpc, step.attachment, pid, t);
    } else if step.OtherRouters? {
      OtherRoutersInv(s, step.others, pid, t);
    } else if step.Land? {
      LandInv(s, step.request);
    } else if step.Lapse? {
      LapseInv(s, step.request);
    } else {
      ProcessInv(s, step, pid);
    }
  }
}
