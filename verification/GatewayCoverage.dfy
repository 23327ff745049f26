/** The gateway's coverage pass (cmd/galactic-gateway/gateway.go): which resolved
    interfaces have their forwarding sysctls and their program. */
module GatewayCoverage {
  import opened Interfaces

  /** One of the gateway's two programs in one pass: the interfaces it resolved
      to, or a failed resolution, and what its set is attached to after its
      reconcile. A node without the program has Off. */
  datatype Role = Off | Unresolved | On(targets: seq<string>, attached: seq<string>)

  function Targets(r: Role): seq<string> {
    if r.On? then r.targets else []
  }

  /** The internal interfaces that are not public ones. */
  function ReturnTargets(public: Role, internal: Role): seq<string> {
    Kept(Targets(internal), Outside(Kept(Targets(internal), Inside(Targets(public)))))
  }

  ghost predicate WorkedAt(targets: seq<string>, works: nat -> bool, i: nat, t: string) {
    i < |targets| && targets[i] == t && works(i)
  }

  ghost predicate Worked(targets: seq<string>, works: nat -> bool, t: string) {
    exists i: nat :: WorkedAt(targets, works, i, t)
  }

  /** The program covers target t. */
  ghost predicate Covers(r: Role, configured: set<string>, t: string) {
    r.On? && t in configured && t in r.attached
  }

  /** The interfaces a pass has to report: public ones without the public program,
      and internal ones that are not public ones without the return program. */
  ghost predicate Lacking(public: Role, internal: Role, configured: set<string>, t: string) {
    || (t in Targets(public) && !Covers(public, configured, t))
    || (t in Targets(internal) && t !in Targets(public) && !Covers(internal, configured, t))
  }

  class DatapathCoverage {
    var missing: seq<string>
    var configured: set<string>

    constructor ()
      ensures missing == [] && configured == {}
    {
      missing, configured := [], {};
    }

    /** Records the missing interfaces, telling whether they changed. */
    method Set(names: seq<string>) returns (changed: bool)
      modifies this`missing
      ensures missing == names && (changed <==> old(missing) != names)
    {
      changed := missing != names;
      missing := names;
    }

    /** Applies the forwarding sysctls to every target not configured yet, the
        write for targets[i] succeeding as works(i), and returns the targets that
        have them. */
    method Configure(targets: seq<string>, works: nat -> bool) returns (ready: seq<string>)
      modifies this`configured
      ensures forall t :: t in ready <==> t in targets && t in configured
      ensures forall t :: t in configured <==> t in old(configured) || Worked(targets, works, t)
    {
      ready := [];
      for k := 0 to |targets|
        invariant forall t :: t in ready <==> t in targets[..k] && t in configured
        invariant old(configured) <= configured
        invariant forall t | t in configured :: t in old(configured) || Worked(targets, works, t)
        invariant forall i: nat | i < k && works(i) :: targets[i] in configured
      {
        assert targets[..k + 1] == targets[..k] + [targets[k]];
        var target := targets[k];
        if target !in configured {
          if !works(k) {
            continue;
          }
          assert WorkedAt(targets, works, k, target);
          configured := configured + {target};
        }
        ready := ready + [target];
      }
      assert targets[..|targets|] == targets;
      forall t | Worked(targets, works, t)
        ensures t in configured
      {
        var i: nat :| WorkedAt(targets, works, i, t);
      }
    }

    /** One program's part of the pass. */
    method Reconcile(targets: seq<string>, attached: seq<string>, works: nat -> bool) returns (names: seq<string>)
      modifies this`configured
      ensures forall t :: t in configured <==> t in old(configured) || Worked(targets, works, t)
      ensures forall t :: t in names <==> t in targets && !(t in configured && t in attached)
    {
      var ready := Configure(targets, works);
      var detached := Uncovered(ready, attached);
      var unready := Uncovered(targets, ready);
      names := detached + unready;
    }

    /** One pass of watchTargets: a failed resolution keeps everything, and
        otherwise exactly the interfaces lacking a program are recorded, once
        each. */
    method Pass(public: Role, internal: Role, works: nat -> bool, worksInternal: nat -> bool) returns (nudge: bool)
      modifies this
      ensures nudge <==> old(missing) != missing
      ensures public.Unresolved? || internal.Unresolved? ==>
                missing == old(missing) && configured == old(configured)
      ensures !public.Unresolved? && !internal.Unresolved? ==>
                && Distinct(missing)
                && (forall t :: t in missing <==> Lacking(public, internal, configured, t))
                && (missing == [] <==> forall t :: !Lacking(public, internal, configured, t))
                && forall t :: t in configured <==>
                     || t in old(configured) || Worked(Targets(public), works, t)
                     || Worked(ReturnTargets(public, internal), worksInternal, t)
    {
      if public.Unresolved? || internal.Unresolved? {
        return false;
      }
      var targets, returnTargets := Targets(public), [];
      if internal.On? {
        var overlap := PublicReturnOverlap(targets, internal.targets);
        returnTargets := Kept(internal.targets, Outside(overlap));
      }
      var names := [];
      if public.On? {
        names := Reconcile(targets, public.attached, works);
      }
      if internal.On? {
        var more := Reconcile(returnTargets, internal.attached, worksInternal);
        names := names + more;
      }
      assert forall t :: t in names <==> Lacking(public, internal, configured, t);
      var unique := Dedupe(names);
      nudge := Set(unique);
      if missing != [] {
        assert missing[0] in missing;
      }
    }
  }
}
