/** The transition rules of an EdgeRoute (api/v1alpha1/edgeroute_types.go) and what
    they promise over every run of admitted updates. */
module EdgeRoute {
  import opened Common

  datatype Holder = Holder(attachment: string, instance: string, podUID: string, instanceEpoch: nat)

  /** An omitted released field reads as false. */
  datatype Claim = Claim(holder: Holder, epoch: nat, released: Option<bool>)

  datatype Spec = Spec(provider: string, vpcUID: string, prefix: string, incarnation: string, claim: Option<Claim>)

  datatype Status = Status(closedEpoch: Option<nat>)

  predicate Released(c: Claim) {
    c.released.Some? && c.released.value
  }

  predicate Immutable(old_: Spec, new_: Spec) {
    new_.provider == old_.provider && new_.vpcUID == old_.vpcUID && new_.prefix == old_.prefix
    && new_.incarnation == old_.incarnation
  }

  predicate EpochKept(old_: Spec, new_: Spec) {
    old_.claim.None? || (new_.claim.Some? && new_.claim.value.epoch >= old_.claim.value.epoch)
  }

  predicate ReleaseKept(old_: Spec, new_: Spec) {
    old_.claim.None? || new_.claim.None? || new_.claim.value.epoch > old_.claim.value.epoch
    || !Released(old_.claim.value) || Released(new_.claim.value)
  }

  predicate HolderKept(old_: Spec, new_: Spec) {
    old_.claim.None? || new_.claim.None? || new_.claim.value.holder == old_.claim.value.holder
    || new_.claim.value.epoch > old_.claim.value.epoch
  }

  /** The API server admits the update. */
  predicate Admits(old_: Spec, new_: Spec) {
    Immutable(old_, new_) && EpochKept(old_, new_) && ReleaseKept(old_, new_) && HolderKept(old_, new_)
  }

  function ClosedEpoch(s: Status): nat {
    if s.closedEpoch.Some? then s.closedEpoch.value else 0
  }

  predicate AdmitsStatus(old_: Status, new_: Status) {
    ClosedEpoch(new_) >= ClosedEpoch(old_)
  }

  /** What the rules come to: the identity stays, and a claim gives way only to one of
      a later epoch, or to itself, released or not released before. */
  lemma AdmitsExactly(a: Spec, b: Spec)
    ensures Admits(a, b) <==>
            && b == a.(claim := b.claim)
            && (a.claim.Some? ==>
                  && b.claim.Some?
                  && (|| b.claim.value.epoch > a.claim.value.epoch
                      || (b.claim.value.epoch == a.claim.value.epoch && b.claim.value.holder == a.claim.value.holder
                          && (Released(a.claim.value) ==> Released(b.claim.value)))))
  {
  }

  /** So every spec can be claimed anew at a later epoch, and its claim released. */
  lemma ClaimAndRelease(a: Spec, c: Claim)
    requires a.claim.Some? ==> c.epoch > a.claim.value.epoch
    ensures Admits(a, a.(claim := Some(c)))
    ensures Admits(a.(claim := Some(c)), a.(claim := Some(c.(released := Some(true)))))
  {
  }

  ghost predicate Run(specs: seq<Spec>) {
    |specs| > 0 && forall i | 0 <= i < |specs| - 1 :: Admits(specs[i], specs[i + 1])
  }

  /** Each rule alone looks at two states; together they are transitive, so any two
      states of a run are related as one update's are. */
  lemma {:induction false} RunAdmits(specs: seq<Spec>, i: nat, j: nat)
    requires Run(specs) && i <= j < |specs|
    ensures Admits(specs[i], specs[j])
  {
    if i < j {
      RunAdmits(specs, i, j - 1);
      assert Admits(specs[j - 1], specs[j]);
    }
  }

  /** One update can do exactly what some run of updates can. */
  lemma RunsAreUpdates(a: Spec, b: Spec)
    ensures Admits(a, b) <==> exists specs :: Run(specs) && specs[0] == a && specs[|specs| - 1] == b
  {
    if Admits(a, b) {
      assert Run([a, b]) && [a, b][0] == a && [a, b][|[a, b]| - 1] == b;
    }
    forall specs | Run(specs) && specs[0] == a && specs[|specs| - 1] == b
      ensures Admits(a, b)
    {
      RunAdmits(specs, 0, |specs| - 1);
    }
  }

  /** A claim never disappears and its epoch never decreases. */
  lemma ClaimStays(specs: seq<Spec>, i: nat, j: nat)
    requires Run(specs) && i <= j < |specs| && specs[i].claim.Some?
    ensures specs[j].claim.Some? && specs[j].claim.value.epoch >= specs[i].claim.value.epoch
    ensures Immutable(specs[i], specs[j])
  {
    RunAdmits(specs, i, j);
  }

  /** The holder is a function of the epoch. */
  lemma HolderOfEpoch(specs: seq<Spec>, i: nat, j: nat)
    requires Run(specs) && i < |specs| && j < |specs| && specs[i].claim.Some? && specs[j].claim.Some?
    requires specs[i].claim.value.epoch == specs[j].claim.value.epoch
    ensures specs[i].claim.value.holder == specs[j].claim.value.holder
  {
    if i <= j {
      RunAdmits(specs, i, j);
    } else {
      RunAdmits(specs, j, i);
    }
  }

  /** A claim released at an epoch is released in every later state of that epoch,
      and a later unreleased claim has a later epoch. */
  lemma ReleaseStays(specs: seq<Spec>, i: nat, j: nat)
    requires Run(specs) && i <= j < |specs| && specs[i].claim.Some? && Released(specs[i].claim.value)
    ensures specs[j].claim.Some?
    ensures Released(specs[j].claim.value) || specs[j].claim.value.epoch > specs[i].claim.value.epoch
  {
    RunAdmits(specs, i, j);
  }

  lemma {:induction false} ClosedEpochMonotone(statuses: seq<Status>, i: nat, j: nat)
    requires i <= j < |statuses|
    requires forall k | 0 <= k < |statuses| - 1 :: AdmitsStatus(statuses[k], statuses[k + 1])
    ensures ClosedEpoch(statuses[i]) <= ClosedEpoch(statuses[j])
  {
    if i < j {
      ClosedEpochMonotone(statuses, i, j - 1);
      assert AdmitsStatus(statuses[j - 1], statuses[j]);
    }
  }
}
