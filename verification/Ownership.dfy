/** Who owns an attachment's device (internal/cni, internal/cnitap). Both device
    kinds are named from the attachment alone, so a replacement container's ADD
    finds its predecessor's device: a veth pair is removed and created again, a tap
    is adopted in place. The owner is stamped on the device, DEL removes it only
    while it is the owner's, and a failed ADD deletes what it created and hands
    back what it took over.

    ADDs of one attachment do not overlap each other. DELs of other containers run
    at any time, and each is two steps: it looks the device up and checks the
    owner, and later removes that device. */
module Ownership {
  import opened Common

  datatype Kind = Veth | Tap

  datatype Device = Device(id: nat, owner: string)

  /** Where an ADD stands; id is the device it works on. */
  datatype Phase =
    | Looking
    | Removing(id: nat)
    | Creating
    | Stamping(id: nat)
    | Working(id: nat)     // inside the device's Add, past the stamp
    | Returned(id: nat)    // the device's Add returned and the tracker holds its result
    | Failed(tracked: bool)

  /** adopted is the owner found on an existing device. */
  datatype Add = Add(container: string, phase: Phase, adopted: Option<string>)

  /** A container whose ADD succeeded, and the device it completed with. */
  datatype Live = Live(name: string, device: nat)

  datatype State = State(
    device: Option<Device>,
    nextId: nat,
    live: Option<Live>,           // the latest container whose ADD succeeded and whose DEL has not come
    ended: set<string>,           // containers whose DEL came
    add: Option<Add>,             // the ADD in flight
    looks: set<(string, nat)>)    // DELs past their check and not past their removal

  datatype Step =
    | Begin(c: string)
    | Look
    | Remove
    | Create
    | Stamp
    | Return
    | Complete
    | Fail
    | RollBack
    | RollBackFails
    | DelLook(c: string)
    | DelRemove(c: string, id: nat)
    | DelStops(c: string, id: nat)

  /** A device carrying no owner is anyone's. */
  predicate OwnedBy(d: Device, c: string) {
    d.owner == "" || d.owner == c
  }

  predicate IsLive(s: State, c: string) {
    s.live.Some? && s.live.value.name == c
  }

  predicate Holds(s: State, id: nat) {
    s.device.Some? && s.device.value.id == id
  }

  predicate Enabled(s: State, a: Step) {
    match a
    case Begin(c) => s.add.None? && c != "" && c !in s.ended
    case Look => s.add.Some? && s.add.value.phase.Looking?
    case Remove => s.add.Some? && s.add.value.phase.Removing?
    case Create => s.add.Some? && s.add.value.phase.Creating? && s.device.None?
    case Stamp => s.add.Some? && s.add.value.phase.Stamping? && Holds(s, s.add.value.phase.id)
    case Return => s.add.Some? && s.add.value.phase.Working? && Holds(s, s.add.value.phase.id)
    case Complete => s.add.Some? && s.add.value.phase.Returned?
    case Fail => s.add.Some? && !s.add.value.phase.Failed?
    case RollBack => s.add.Some? && s.add.value.phase.Failed?
    case RollBackFails => s.add.Some? && s.add.value.phase.Failed?
    case DelLook(c) => c != "" && (s.add.Some? ==> s.add.value.container != c)
    case DelRemove(c, id) => (c, id) in s.looks
    case DelStops(c, id) => (c, id) in s.looks
  }

  function To(s: State, p: Phase): State
    requires s.add.Some?
  {
    s.(add := Some(s.add.value.(phase := p)))
  }

  function RollBackDevice(a: Add, d: Option<Device>): Option<Device>
    requires a.phase.Failed?
  {
    if d.None? then None
    else if a.phase.tracked && a.adopted.Some? && a.adopted.value != "" then Some(d.value.(owner := a.adopted.value))
    else if OwnedBy(d.value, a.container) then None
    else d
  }

  function Apply(kind: Kind, s: State, a: Step): State
    requires Enabled(s, a)
  {
    match a
    case Begin(c) =>
      s.(add := Some(Add(c, Looking, None)), live := if IsLive(s, c) then None else s.live)
    case Look =>
      if s.device.None? then To(s, Creating)
      else
        var id := s.device.value.id;
        var phase := if kind.Veth? then Removing(id) else Stamping(id);
        s.(add := Some(Add(s.add.value.container, phase, Some(s.device.value.owner))))
    case Remove =>
      To(s, Creating).(device := if Holds(s, s.add.value.phase.id) then None else s.device)
    case Create =>
      To(s, Stamping(s.nextId)).(device := Some(Device(s.nextId, "")), nextId := s.nextId + 1)
    case Stamp =>
      // Stamping is the last step of adopting a tap.
      var id := s.add.value.phase.id;
      var last := kind.Tap? && s.add.value.adopted.Some?;
      To(s, if last then Returned(id) else Working(id)).(device := Some(Device(id, s.add.value.container)))
    case Return => To(s, Returned(s.add.value.phase.id))
    case Complete => s.(add := None, live := Some(Live(s.add.value.container, s.add.value.phase.id)))
    case Fail => To(s, Failed(s.add.value.phase.Returned?))
    case RollBack => s.(add := None, device := RollBackDevice(s.add.value, s.device))
    case RollBackFails => s.(add := None)
    case DelLook(c) =>
      s.(ended := s.ended + {c}, live := if IsLive(s, c) then None else s.live,
         looks := if s.device.Some? && OwnedBy(s.device.value, c) then s.looks + {(c, s.device.value.id)} else s.looks)
    case DelRemove(c, id) =>
      s.(looks := s.looks - {(c, id)}, device := if Holds(s, id) then None else s.device)
    case DelStops(c, id) => s.(looks := s.looks - {(c, id)})
  }

  predicate Next(kind: Kind, s: State, t: State, a: Step) {
    Enabled(s, a) && t == Apply(kind, s, a)
  }

  // ---- Safety

  ghost predicate LookedAt(s: State, id: nat) {
    exists c :: (c, id) in s.looks
  }

  /** The device is owner's, and no other container's DEL is about to remove it. */
  ghost predicate Secure(s: State, owner: string) {
    s.device.Some? && s.device.value.owner == owner && !LookedAt(s, s.device.value.id)
  }

  ghost predicate AddOk(kind: Kind, s: State, a: Add) {
    && a.container != "" && a.container !in s.ended && !IsLive(s, a.container)
    && match a.phase
       case Looking => (s.live.Some? ==> Secure(s, s.live.value.name)) && a.adopted.None?
       case Removing(id) =>
         && kind.Veth?
         && (s.live.Some? ==> Secure(s, s.live.value.name) && Holds(s, id) && a.adopted == Some(s.live.value.name))
       case Creating =>
         && (s.live.Some? ==> kind.Veth? && a.adopted == Some(s.live.value.name) && s.device.None?)
         && (kind.Tap? ==> a.adopted.None?)
       case Stamping(id) =>
         && (s.live.Some? ==> a.adopted == Some(s.live.value.name))
         && (s.live.Some? && kind.Tap? ==> Secure(s, s.live.value.name) && Holds(s, id))
         && (s.live.Some? && kind.Veth? && s.device.Some? ==> s.device.value.owner == "")
         && id < s.nextId
       case Working(id) =>
         Secure(s, a.container) && Holds(s, id) && (s.live.Some? ==> kind.Veth? && a.adopted == Some(s.live.value.name))
       case Returned(id) =>
         Secure(s, a.container) && Holds(s, id) && (s.live.Some? ==> a.adopted == Some(s.live.value.name))
       case Failed(tracked) =>
         s.live.Some? ==>
           if tracked then a.adopted == Some(s.live.value.name) && Secure(s, a.container)
           else Secure(s, s.live.value.name)
  }

  ghost predicate Inv(kind: Kind, s: State) {
    && (s.device.Some? ==> s.device.value.id < s.nextId)
    && (forall l | l in s.looks :: l.1 < s.nextId)
    && (s.live.Some? ==> s.live.value.name != "" && s.live.value.name !in s.ended && s.live.value.device < s.nextId)
    && (if s.add.Some? then AddOk(kind, s, s.add.value) else s.live.Some? ==> Secure(s, s.live.value.name))
  }

  /** A veth ADD that removed its live predecessor's pair and has not returned. */
  predicate Exposed(kind: Kind, s: State) {
    && kind.Veth? && s.live.Some? && s.add.Some?
    && (s.add.value.phase.Creating? || s.add.value.phase.Stamping? || s.add.value.phase.Working?)
  }

  /** The three things that must not happen: a stamp on a device a DEL has already
      checked, a failure while a live predecessor's pair is gone, and a rollback
      that cannot hand back. */
  ghost predicate Benign(kind: Kind, s: State, a: Step) {
    match a
    case Stamp => s.add.Some? && s.add.value.phase.Stamping? ==> !LookedAt(s, s.add.value.phase.id)
    case Fail => !Exposed(kind, s)
    case RollBackFails => s.live.Some? ==> s.device.Some? && s.device.value.owner == s.live.value.name
    case _ => true
  }

  lemma AddInv(kind: Kind, s: State, t: State, a: Step)
    requires Inv(kind, s) && Next(kind, s, t, a) && Benign(kind, s, a)
    requires a.Begin? || a.Look? || a.Remove? || a.Create? || a.Stamp? || a.Return? || a.Complete?
    ensures Inv(kind, t)
  {
    assert t.looks == s.looks;
  }

  lemma FailInv(kind: Kind, s: State, t: State, a: Step)
    requires Inv(kind, s) && Next(kind, s, t, a) && Benign(kind, s, a)
    requires a.Fail? || a.RollBack? || a.RollBackFails?
    ensures Inv(kind, t)
  {
    assert t.looks == s.looks;
  }

  lemma DelInv(kind: Kind, s: State, t: State, a: Step)
    requires Inv(kind, s) && Next(kind, s, t, a)
    requires a.DelLook? || a.DelRemove? || a.DelStops?
    ensures Inv(kind, t)
  {
    if !a.DelLook? {
      assert t.looks <= s.looks;
    }
  }

  lemma NextInv(kind: Kind, s: State, t: State, a: Step)
    requires Inv(kind, s) && Next(kind, s, t, a) && Benign(kind, s, a)
    ensures Inv(kind, t)
  {
    if a.Fail? || a.RollBack? || a.RollBackFails? {
      FailInv(kind, s, t, a);
    } else if a.DelLook? || a.DelRemove? || a.DelStops? {
      DelInv(kind, s, t, a);
    } else {
      AddInv(kind, s, t, a);
    }
  }

  ghost predicate Run(kind: Kind, states: seq<State>, steps: seq<Step>) {
    && |states| == |steps| + 1
    && forall i | 0 <= i < |steps| :: Next(kind, states[i], states[i + 1], steps[i])
  }

  const EMPTY := State(None, 0, None, {}, None, {})

  lemma {:induction false} RunInv(kind: Kind, states: seq<State>, steps: seq<Step>, i: nat)
    requires Run(kind, states, steps) && states[0] == EMPTY && i < |states|
    requires forall k | 0 <= k < i :: Benign(kind, states[k], steps[k])
    ensures Inv(kind, states[i])
  {
    if i > 0 {
      RunInv(kind, states, steps, i - 1);
      NextInv(kind, states[i - 1], states[i], steps[i - 1]);
    }
  }

  /** Whenever no ADD is in flight, the latest live container's device is there
      and carries its stamp, in every history of benign steps. */
  lemma DeviceKept(kind: Kind, states: seq<State>, steps: seq<Step>, i: nat)
    requires Run(kind, states, steps) && states[0] == EMPTY && i < |states|
    requires forall k | 0 <= k < i :: Benign(kind, states[k], steps[k])
    requires states[i].live.Some? && states[i].add.None?
    ensures states[i].device.Some? && states[i].device.value.owner == states[i].live.value.name
  {
    RunInv(kind, states, steps, i);
  }

  /** The live container's device goes only to a veth ADD taking it over. */
  lemma OnlyTakeoverRemoves(kind: Kind, s: State, t: State, a: Step)
    requires Inv(kind, s) && Next(kind, s, t, a) && Benign(kind, s, a)
    requires s.live.Some? && s.device.Some? && s.device.value.owner == s.live.value.name
    requires !(t.device.Some? && t.device.value.id == s.device.value.id)
    requires t.live == s.live
    ensures kind.Veth? && a.Remove?
  {
    assert a.DelRemove? ==> LookedAt(s, a.id);
  }

  // ---- Exactly when a failed ADD hands back

  function AfterFailure(kind: Kind, s: State): State
    requires Enabled(s, Fail)
  {
    Apply(kind, Apply(kind, s, Fail), RollBack)
  }

  /** A failed ADD leaves the live predecessor a device with its stamp exactly when
      it did not fail between removing the pair and returning from veth.Add. A
      tap's always does. */
  lemma HandBackExactly(kind: Kind, s: State)
    requires Inv(kind, s) && s.live.Some? && s.add.Some? && !s.add.value.phase.Failed?
    ensures var t := AfterFailure(kind, s);
            t.device.Some? && t.device.value.owner == s.live.value.name <==> !Exposed(kind, s)
  {
  }

  /** A rollback that fails itself costs the stamp exactly when the device's Add
      had returned. */
  lemma FailedRollBackExactly(kind: Kind, s: State)
    requires Inv(kind, s) && s.live.Some? && s.add.Some? && s.add.value.phase.Failed?
    ensures var t := Apply(kind, s, RollBackFails);
            t.device.Some? && t.device.value.owner == s.live.value.name <==> !s.add.value.phase.tracked
  {
  }

  // ---- What a failed ADD and a DEL leave

  /** After a rollback a device remains exactly when the ADD's tracker has a prior
      owner to hand it back to, whose it then is, or it carries another's stamp. */
  lemma RollBackExactly(kind: Kind, s: State)
    requires Enabled(s, RollBack)
    ensures var a, t := s.add.value, Apply(kind, s, RollBack);
            var back := a.phase.tracked && a.adopted.Some? && a.adopted.value != "";
            && (t.device.Some? <==> s.device.Some? && (back || !OwnedBy(s.device.value, a.container)))
            && (t.device.Some? ==>
                  && Holds(s, t.device.value.id)
                  && t.device.value.owner == if back then a.adopted.value else s.device.value.owner)
  {
  }

  /** The containers with an ADD that completed. */
  ghost function Completed(states: seq<State>, steps: seq<Step>, i: nat): set<string>
    requires i <= |steps| < |states|
  {
    if i == 0 then {}
    else
      Completed(states, steps, i - 1)
      + if steps[i - 1].Complete? && states[i - 1].add.Some? then {states[i - 1].add.value.container} else {}
  }

  ghost predicate StampIn(s: State, done: set<string>) {
    s.device.Some? ==> s.device.value.owner in done
  }

  /** Whose the device is: short of an ADD's own, one whose ADD completed. */
  ghost predicate Known(s: State, done: set<string>) {
    && "" !in done
    && if s.add.None? then StampIn(s, done)
       else
         var a := s.add.value;
         && a.container != "" && (a.adopted.Some? ==> a.adopted.value in done)
         && match a.phase
            case Looking => StampIn(s, done)
            case Removing(id) => StampIn(s, done) && (s.device.Some? ==> Holds(s, id))
            case Creating => s.device.None?
            case Stamping(_) => s.device.Some? ==> s.device.value.owner == "" || s.device.value.owner in done
            case Working(_) => s.device.Some? ==> s.device.value.owner == a.container
            case Returned(_) => s.device.Some? ==> s.device.value.owner == a.container
            case Failed(tracked) =>
              s.device.Some? ==>
                || s.device.value.owner == a.container
                || (!tracked && (s.device.value.owner == "" || s.device.value.owner in done))
  }

  lemma KnownStep(kind: Kind, s: State, t: State, a: Step, done: set<string>)
    requires Known(s, done) && Next(kind, s, t, a) && !a.RollBackFails?
    ensures Known(t, if a.Complete? then done + {s.add.value.container} else done)
  {
  }

  lemma {:induction false} RunKnown(kind: Kind, states: seq<State>, steps: seq<Step>, i: nat)
    requires Run(kind, states, steps) && states[0] == EMPTY && i < |states|
    requires forall k | 0 <= k < i :: !steps[k].RollBackFails?
    ensures Known(states[i], Completed(states, steps, i))
  {
    if i > 0 {
      RunKnown(kind, states, steps, i - 1);
      KnownStep(kind, states[i - 1], states[i], steps[i - 1], Completed(states, steps, i - 1));
    }
  }

  /** In every history without a failed rollback, whatever else fails and whenever
      DELs come: with no ADD in flight, a device that is there carries the stamp of
      a container with an ADD that completed. So a failed ADD leaves none. */
  lemma NothingLeftBehind(kind: Kind, states: seq<State>, steps: seq<Step>, i: nat)
    requires Run(kind, states, steps) && states[0] == EMPTY && i < |states|
    requires forall k | 0 <= k < i :: !steps[k].RollBackFails?
    requires states[i].add.None? && states[i].device.Some?
    ensures states[i].device.value.owner in Completed(states, steps, i)
  {
    RunKnown(kind, states, steps, i);
  }

  /** A DEL that is not interrupted takes its container's device, and one without an
      owner, and leaves any other. */
  lemma DelExactly(kind: Kind, s: State, c: string)
    requires Enabled(s, DelLook(c)) && s.device.Some?
    ensures var t := Apply(kind, s, DelLook(c));
            if OwnedBy(s.device.value, c)
            then Enabled(t, DelRemove(c, s.device.value.id))
                 && Apply(kind, t, DelRemove(c, s.device.value.id)).device.None?
            else t.looks == s.looks && t.device == s.device
  {
  }

  // ---- Exactly when the live container keeps its own device

  /** The device the live container's ADD completed with is still there. */
  predicate Own(s: State) {
    s.live.Some? && Holds(s, s.live.value.device)
  }

  /** Benign, or a failure at any point. */
  ghost predicate Tolerable(kind: Kind, s: State, a: Step) {
    a.Fail? || Benign(kind, s, a)
  }

  /** Ids are not used again. */
  predicate IdsBelow(s: State) {
    && (s.live.Some? ==> s.live.value.device < s.nextId)
    && (s.device.Some? ==> s.device.value.id < s.nextId)
    && (s.add.Some? && (s.add.value.phase.Stamping? || s.add.value.phase.Working? || s.add.value.phase.Returned?) ==>
          s.add.value.phase.id < s.nextId)
  }

  lemma OwnNeverBack(kind: Kind, s: State, t: State, a: Step)
    requires IdsBelow(s) && Next(kind, s, t, a)
    ensures IdsBelow(t)
    ensures t.live.Some? && t.live == s.live && !Own(s) && !a.Complete? ==> !Own(t)
  {
  }

  /** Short of a takeover's removal, the live container's device stays its own. */
  lemma OwnStays(kind: Kind, s: State, t: State, a: Step)
    requires Inv(kind, s) && Own(s) && Next(kind, s, t, a) && Tolerable(kind, s, a) && !a.Complete?
    requires t.live == s.live && (kind.Tap? || !a.Remove?) && !Exposed(kind, s)
    ensures Inv(kind, t) && Own(t) && !Exposed(kind, t)
  {
    NextInv(kind, s, t, a);
    if a.DelRemove? {
      assert LookedAt(s, a.id);
    }
  }

  ghost predicate NoRemove(steps: seq<Step>, j: nat, i: nat)
    requires i <= |steps|
  {
    forall k | j <= k < i :: !steps[k].Remove?
  }

  ghost predicate Standing(kind: Kind, s: State, kept: bool) {
    IdsBelow(s) && if kept then Inv(kind, s) && Own(s) && !Exposed(kind, s) else !Own(s)
  }

  /** A step while one container stays the live one. */
  ghost predicate Between(kind: Kind, s: State, t: State, a: Step) {
    && Next(kind, s, t, a) && Tolerable(kind, s, a)
    && !a.Complete? && s.live.Some? && t.live == s.live
  }

  lemma StandingStep(kind: Kind, s: State, t: State, a: Step, kept: bool)
    requires Standing(kind, s, kept) && Between(kind, s, t, a)
    ensures Standing(kind, t, kept && (kind.Tap? || !a.Remove?))
  {
    OwnNeverBack(kind, s, t, a);
    if kept && (kind.Tap? || !a.Remove?) {
      OwnStays(kind, s, t, a);
    }
  }

  lemma {:induction false} OwnUntil(kind: Kind, states: seq<State>, steps: seq<Step>, j: nat, i: nat)
    requires |states| == |steps| + 1 && j <= i < |states| && Standing(kind, states[j], true)
    requires forall k | j <= k < i :: Between(kind, states[k], states[k + 1], steps[k])
    ensures Standing(kind, states[i], kind.Tap? || NoRemove(steps, j, i))
    decreases i
  {
    if j < i {
      OwnUntil(kind, states, steps, j, i - 1);
      var kept := kind.Tap? || NoRemove(steps, j, i - 1);
      StandingStep(kind, states[i - 1], states[i], steps[i - 1], kept);
    }
  }

  /** From its completion on, over any ADDs that fail at any point and any DELs,
      the live container keeps the very device it completed with exactly when it
      is a tap or no ADD of another container got as far as removing the pair. */
  lemma OwnDeviceExactly(kind: Kind, states: seq<State>, steps: seq<Step>, j: nat, i: nat)
    requires Run(kind, states, steps) && states[0] == EMPTY && j < i < |states| && steps[j] == Complete
    requires forall k | 0 <= k <= j :: Benign(kind, states[k], steps[k])
    requires forall k | j < k < i :: Between(kind, states[k], states[k + 1], steps[k])
    ensures Own(states[i]) <==> kind.Tap? || NoRemove(steps, j + 1, i)
  {
    RunInv(kind, states, steps, j);
    assert Next(kind, states[j], states[j + 1], steps[j]);
    NextInv(kind, states[j], states[j + 1], steps[j]);
    OwnUntil(kind, states, steps, j + 1, i);
  }

  // ---- Exactly when DELs can take it

  /** Steps of other containers' DELs. */
  predicate OthersDel(a: Step, owner: string) {
    (a.DelLook? || a.DelRemove? || a.DelStops?) && a.c != owner
  }

  /** Some DELs of other containers take the live container's device. */
  ghost predicate AtRisk(kind: Kind, s: State) {
    exists states: seq<State>, steps: seq<Step> ::
      && Run(kind, states, steps) && states[0] == s && s.live.Some?
      && (forall a | a in steps :: OthersDel(a, s.live.value.name)) && !Own(states[|steps|])
  }

  /** Another container's DEL has looked at the device. */
  ghost predicate OthersLooked(s: State, owner: string) {
    s.device.Some? && exists c :: c != owner && (c, s.device.value.id) in s.looks
  }

  ghost predicate Stamped(s: State, owner: string) {
    s.device.Some? && s.device.value.owner == owner && !OthersLooked(s, owner)
  }

  lemma {:induction false} StampedFromDels(kind: Kind, states: seq<State>, steps: seq<Step>, i: nat, owner: string)
    requires Run(kind, states, steps) && i < |states| && owner != "" && Stamped(states[0], owner)
    requires forall a | a in steps :: OthersDel(a, owner)
    ensures Stamped(states[i], owner) && states[i].device == states[0].device
    ensures IsLive(states[0], owner) ==> states[i].live == states[0].live
  {
    if i > 0 {
      StampedFromDels(kind, states, steps, i - 1, owner);
      var s, t, a := states[i - 1], states[i], steps[i - 1];
      assert Next(kind, s, t, a) && a in steps && OthersDel(a, owner);
    }
  }

  /** In every state of every history, whatever went before: other containers' DELs
      can take the live container's device exactly when it does not carry its stamp,
      as after a rollback that failed to hand back, or one has already looked at it. */
  lemma AtRiskExactly(kind: Kind, s: State)
    requires Own(s) && s.add.None? && s.live.value.name != ""
    ensures AtRisk(kind, s) <==> s.device.value.owner != s.live.value.name || OthersLooked(s, s.live.value.name)
  {
    var name, id := s.live.value.name, s.device.value.id;
    if OthersLooked(s, name) {
      var c :| c != name && (c, id) in s.looks;
      TakenAfterLook(kind, [s], [], c, id);
    } else if s.device.value.owner != name {
      var c := if s.device.value.owner != "" then s.device.value.owner else name + name;
      var t := Apply(kind, s, DelLook(c));
      assert Run(kind, [s, t], [DelLook(c)]);
      TakenAfterLook(kind, [s, t], [DelLook(c)], c, id);
    } else {
      forall states: seq<State>, steps: seq<Step>
        | Run(kind, states, steps) && states[0] == s && forall a | a in steps :: OthersDel(a, name)
        ensures Own(states[|steps|])
      {
        StampedFromDels(kind, states, steps, |steps|, name);
      }
    }
  }

  lemma TakenAfterLook(kind: Kind, states: seq<State>, steps: seq<Step>, c: string, id: nat)
    requires Run(kind, states, steps) && states[0].live.Some? && states[|steps|].live == states[0].live
    requires forall a | a in steps :: OthersDel(a, states[0].live.value.name)
    requires c != states[0].live.value.name && (c, id) in states[|steps|].looks && id == states[0].live.value.device
    ensures AtRisk(kind, states[0])
  {
    var t := Apply(kind, states[|steps|], DelRemove(c, id));
    RunNext(kind, states, steps, DelRemove(c, id), t);
    assert !Own((states + [t])[|steps| + 1]);
  }

  // ---- Exactly when a stamp is safe

  /** Some continuation of the stamp, without another ADD, leaves the container live
      and its device removed by another container's DEL. */
  ghost predicate CanBeLost(kind: Kind, s: State) {
    exists states: seq<State>, steps: seq<Step> ::
      && Run(kind, states, steps) && states[0] == s && s.add.Some?
      && |steps| > 0 && steps[0] == Stamp && (forall a | a in steps :: !a.Begin? && !a.Fail?)
      && Lost(states[|steps|], s.add.value.container)
  }

  predicate Lost(s: State, c: string) {
    s.add.None? && IsLive(s, c) && s.device.None?
  }

  /** An ADD about to stamp can lose the device it goes on to use, exactly when a
      DEL has already checked that device. */
  lemma StampSafeExactly(kind: Kind, s: State)
    requires Inv(kind, s) && Enabled(s, Stamp)
    ensures CanBeLost(kind, s) <==> !Benign(kind, s, Stamp)
  {
    if Benign(kind, s, Stamp) {
      forall states: seq<State>, steps: seq<Step>
        | Run(kind, states, steps) && states[0] == s && |steps| > 0 && steps[0] == Stamp
          && forall a | a in steps :: !a.Begin? && !a.Fail?
        ensures !Lost(states[|steps|], s.add.value.container)
      {
        StampKeeps(kind, states, steps, |steps|);
      }
    } else {
      StampLoses(kind, s);
    }
  }

  /** From a benign stamp on, while the container lives, the device is its own. */
  ghost predicate Held(s: State, c: string, id: nat) {
    if s.add.Some? then
      && s.add.value.container == c && (s.add.value.phase == Working(id) || s.add.value.phase == Returned(id))
      && Holds(s, id) && Secure(s, c)
    else IsLive(s, c) ==> Holds(s, id) && Secure(s, c)
  }

  lemma {:induction false} StampKeeps(kind: Kind, states: seq<State>, steps: seq<Step>, i: nat)
    requires Run(kind, states, steps) && 0 < i < |states| && Inv(kind, states[0])
    requires Enabled(states[0], Stamp) && Benign(kind, states[0], Stamp) && steps[0] == Stamp
    requires forall a | a in steps :: !a.Begin? && !a.Fail?
    ensures Held(states[i], states[0].add.value.container, states[0].add.value.phase.id)
  {
    var s, t, a := states[i - 1], states[i], steps[i - 1];
    assert Next(kind, s, t, a) && a in steps;
    if i > 1 {
      StampKeeps(kind, states, steps, i - 1);
      HeldStep(kind, s, t, a, states[0].add.value.container, states[0].add.value.phase.id);
    }
  }

  lemma HeldStep(kind: Kind, s: State, t: State, a: Step, c: string, id: nat)
    requires Held(s, c, id) && Next(kind, s, t, a) && !a.Begin? && !a.Fail? && c != ""
    ensures Held(t, c, id)
  {
    if a.DelRemove? {
      assert LookedAt(s, a.id);
    }
    if !a.DelLook? {
      assert t.looks <= s.looks;
    }
  }

  lemma StampLoses(kind: Kind, s: State)
    requires Enabled(s, Stamp) && LookedAt(s, s.add.value.phase.id)
    ensures CanBeLost(kind, s)
  {
    var id := s.add.value.phase.id;
    var c :| (c, id) in s.looks;
    var s1 := Apply(kind, s, Stamp);
    if s1.add.value.phase.Working? {
      StampedLoses(kind, Apply(kind, s1, Return), c, id, [s, s1], [Stamp, Return]);
    } else {
      StampedLoses(kind, s1, c, id, [s], [Stamp]);
    }
  }

  /** The end of such a continuation: the ADD completes and the DEL removes. */
  lemma StampedLoses(kind: Kind, s: State, c: string, id: nat, before: seq<State>, steps: seq<Step>)
    requires Enabled(s, Complete) && s.add.value.phase.Returned? && Holds(s, id) && (c, id) in s.looks
    requires 0 < |before| == |steps| && Run(kind, before + [s], steps) && steps[0] == Stamp
    requires before[0].add.Some? && before[0].add.value.container == s.add.value.container
    requires forall a | a in steps :: !a.Begin? && !a.Fail?
    ensures CanBeLost(kind, before[0])
  {
    var t := Apply(kind, s, Complete);
    var u := Apply(kind, t, DelRemove(c, id));
    RunNext(kind, before + [s], steps, Complete, t);
    RunNext(kind, before + [s] + [t], steps + [Complete], DelRemove(c, id), u);
    var states, all := before + [s] + [t] + [u], steps + [Complete] + [DelRemove(c, id)];
    assert states[0] == before[0] && states[|all|] == u;
  }

  lemma RunNext(kind: Kind, states: seq<State>, steps: seq<Step>, a: Step, t: State)
    requires Run(kind, states, steps) && Next(kind, states[|steps|], t, a)
    ensures Run(kind, states + [t], steps + [a])
  {
    var more, longer := states + [t], steps + [a];
    forall i | 0 <= i < |longer|
      ensures Next(kind, more[i], more[i + 1], longer[i])
    {
      if i < |steps| {
        assert Next(kind, states[i], states[i + 1], steps[i]);
      }
    }
  }

  // ---- Each failure is reachable

  ghost predicate Reachable(kind: Kind, s: State) {
    exists states: seq<State>, steps: seq<Step> ::
      Run(kind, states, steps) && states[0] == EMPTY && states[|steps|] == s
  }

  lemma ReachNext(kind: Kind, s: State, a: Step, t: State)
    requires Reachable(kind, s) && Next(kind, s, t, a)
    ensures Reachable(kind, t)
  {
    var states: seq<State>, steps: seq<Step> :|
      Run(kind, states, steps) && states[0] == EMPTY && states[|steps|] == s;
    RunNext(kind, states, steps, a, t);
    var more, longer := states + [t], steps + [a];
    assert Run(kind, more, longer) && more[0] == EMPTY && more[|longer|] == t;
  }

  function Only(c: string): State {
    State(Some(Device(0, c)), 1, Some(Live(c, 0)), {}, None, {})
  }

  /** The first container's ADD. */
  lemma FirstAdd(kind: Kind, c: string)
    requires c != ""
    ensures Reachable(kind, Only(c))
  {
    assert Run(kind, [EMPTY], []);
    var s1 := EMPTY.(add := Some(Add(c, Looking, None)));
    var s2 := s1.(add := Some(Add(c, Creating, None)));
    var s3 := State(Some(Device(0, "")), 1, None, {}, Some(Add(c, Stamping(0), None)), {});
    var s4 := State(Some(Device(0, c)), 1, None, {}, Some(Add(c, Working(0), None)), {});
    var s5 := s4.(add := Some(Add(c, Returned(0), None)));
    ReachNext(kind, EMPTY, Begin(c), s1);
    ReachNext(kind, s1, Look, s2);
    ReachNext(kind, s2, Create, s3);
    ReachNext(kind, s3, Stamp, s4);
    ReachNext(kind, s4, Return, s5);
    ReachNext(kind, s5, Complete, Only(c));
  }

  /** The second container's veth ADD up to the removal of the first's pair. */
  lemma TakenOver(old_: string, new_: string)
    requires old_ != "" && new_ != "" && old_ != new_
    ensures Reachable(Veth, State(None, 1, Some(Live(old_, 0)), {}, Some(Add(new_, Creating, Some(old_))), {}))
  {
    FirstAdd(Veth, old_);
    var s0 := Only(old_);
    var s1 := s0.(add := Some(Add(new_, Looking, None)));
    var s2 := s0.(add := Some(Add(new_, Removing(0), Some(old_))));
    var s3 := State(None, 1, Some(Live(old_, 0)), {}, Some(Add(new_, Creating, Some(old_))), {});
    ReachNext(Veth, s0, Begin(new_), s1);
    ReachNext(Veth, s1, Look, s2);
    ReachNext(Veth, s2, Remove, s3);
  }

  /** A veth ADD that fails right after removing the pair leaves its live
      predecessor without one. */
  lemma FailedVethAddLosesPair(old_: string, new_: string)
    requires old_ != "" && new_ != "" && old_ != new_
    ensures Reachable(Veth, State(None, 1, Some(Live(old_, 0)), {}, None, {}))
  {
    TakenOver(old_, new_);
    var s3 := State(None, 1, Some(Live(old_, 0)), {}, Some(Add(new_, Creating, Some(old_))), {});
    var s4 := s3.(add := Some(Add(new_, Failed(false), Some(old_))));
    ReachNext(Veth, s3, Fail, s4);
    ReachNext(Veth, s4, RollBack, State(None, 1, Some(Live(old_, 0)), {}, None, {}));
  }

  /** One that fails later hands back another pair than it took: the predecessor's
      own is gone. */
  lemma FailedVethAddReplacesPair(old_: string, new_: string)
    requires old_ != "" && new_ != "" && old_ != new_
    ensures Reachable(Veth, State(Some(Device(1, old_)), 2, Some(Live(old_, 0)), {}, None, {}))
  {
    TakenOver(old_, new_);
    var s3 := State(None, 1, Some(Live(old_, 0)), {}, Some(Add(new_, Creating, Some(old_))), {});
    var s4 := State(Some(Device(1, "")), 2, Some(Live(old_, 0)), {}, Some(Add(new_, Stamping(1), Some(old_))), {});
    var s5 := s4.(device := Some(Device(1, new_)), add := Some(Add(new_, Working(1), Some(old_))));
    var s6 := s5.(add := Some(Add(new_, Returned(1), Some(old_))));
    var s7 := s5.(add := Some(Add(new_, Failed(true), Some(old_))));
    ReachNext(Veth, s3, Create, s4);
    ReachNext(Veth, s4, Stamp, s5);
    ReachNext(Veth, s5, Return, s6);
    ReachNext(Veth, s6, Fail, s7);
    ReachNext(Veth, s7, RollBack, State(Some(Device(1, old_)), 2, Some(Live(old_, 0)), {}, None, {}));
  }

  /** A rollback that cannot restore the stamp leaves a tap to the container whose
      ADD failed. */
  lemma FailedRollBackLosesStamp(old_: string, new_: string)
    requires old_ != "" && new_ != "" && old_ != new_
    ensures Reachable(Tap, State(Some(Device(0, new_)), 1, Some(Live(old_, 0)), {}, None, {}))
  {
    FirstAdd(Tap, old_);
    var s0 := Only(old_);
    var s1 := s0.(add := Some(Add(new_, Looking, None)));
    var s2 := s0.(add := Some(Add(new_, Stamping(0), Some(old_))));
    var s3 := s0.(device := Some(Device(0, new_)), add := Some(Add(new_, Returned(0), Some(old_))));
    var s4 := s3.(add := Some(Add(new_, Failed(true), Some(old_))));
    ReachNext(Tap, s0, Begin(new_), s1);
    ReachNext(Tap, s1, Look, s2);
    ReachNext(Tap, s2, Stamp, s3);
    ReachNext(Tap, s3, Fail, s4);
    ReachNext(Tap, s4, RollBackFails, s3.(add := None));
  }

  /** A DEL that checked a tap before the next container adopted it removes the
      tap from under that container. */
  lemma LateDelLosesTap(old_: string, new_: string)
    requires old_ != "" && new_ != "" && old_ != new_
    ensures Reachable(Tap, State(None, 1, Some(Live(new_, 0)), {old_}, None, {}))
  {
    FirstAdd(Tap, old_);
    var s0 := Only(old_);
    var s1 := State(Some(Device(0, old_)), 1, None, {old_}, None, {(old_, 0)});
    var s2 := s1.(add := Some(Add(new_, Looking, None)));
    var s3 := s1.(add := Some(Add(new_, Stamping(0), Some(old_))));
    var s4 := s1.(device := Some(Device(0, new_)), add := Some(Add(new_, Returned(0), Some(old_))));
    var s5 := s4.(live := Some(Live(new_, 0)), add := None);
    ReachNext(Tap, s0, DelLook(old_), s1);
    ReachNext(Tap, s1, Begin(new_), s2);
    ReachNext(Tap, s2, Look, s3);
    ReachNext(Tap, s3, Stamp, s4);
    ReachNext(Tap, s4, Complete, s5);
    ReachNext(Tap, s5, DelRemove(old_, 0), State(None, 1, Some(Live(new_, 0)), {old_}, None, {}));
  }

  /** A DEL that looks while the new pair is created and not yet stamped finds it
      unowned, and removes it from under the next container too. */
  lemma EarlyDelLosesPair(old_: string, new_: string)
    requires old_ != "" && new_ != "" && old_ != new_
    ensures Reachable(Veth, State(None, 2, Some(Live(new_, 1)), {old_}, None, {}))
  {
    TakenOver(old_, new_);
    var s3 := State(None, 1, Some(Live(old_, 0)), {}, Some(Add(new_, Creating, Some(old_))), {});
    var s4 := State(Some(Device(1, "")), 2, Some(Live(old_, 0)), {}, Some(Add(new_, Stamping(1), Some(old_))), {});
    var s5 := s4.(live := None, ended := {old_}, looks := {(old_, 1)});
    var s6 := s5.(device := Some(Device(1, new_)), add := Some(Add(new_, Working(1), Some(old_))));
    var s7 := s6.(add := Some(Add(new_, Returned(1), Some(old_))));
    var s8 := s6.(add := None, live := Some(Live(new_, 1)));
    ReachNext(Veth, s3, Create, s4);
    ReachNext(Veth, s4, DelLook(old_), s5);
    ReachNext(Veth, s5, Stamp, s6);
    ReachNext(Veth, s6, Return, s7);
    ReachNext(Veth, s7, Complete, s8);
    ReachNext(Veth, s8, DelRemove(old_, 1), State(None, 2, Some(Live(new_, 1)), {old_}, None, {}));
  }
}
