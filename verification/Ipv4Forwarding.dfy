/** When the gateway writes its IPv4 forwarding sysctls
    (cmd/galactic-gateway/gateway.go). A ghost log keeps every call and every
    write, and the laws are read from the log alone. */
module Ipv4Forwarding {
  import opened Common
  import opened Interfaces

  datatype Event = Tracked(names: seq<string>) | Enabled | Wrote(name: string, ok: bool)

  ghost predicate EverEnabled(log: Log<Event>) {
    log.Snoc? && (log.last.Enabled? || EverEnabled(log.prev))
  }

  ghost predicate TrackedNow(log: Log<Event>, t: string) {
    log.Snoc? && if log.last.Tracked? then t in log.last.names else TrackedNow(log.prev, t)
  }

  /** The successful writes of t since it last appeared. */
  ghost function Stay(log: Log<Event>, t: string): nat {
    match log
    case Empty => 0
    case Snoc(prev, Tracked(names)) => if t in names then Stay(prev, t) else 0
    case Snoc(prev, Enabled) => Stay(prev, t)
    case Snoc(prev, Wrote(n, ok)) => Stay(prev, t) + if n == t && ok then 1 else 0
  }

  /** Nothing is written before the first enable, nothing that is not tracked, and
      nothing successfully written already in its stay. */
  ghost predicate Lawful(log: Log<Event>) {
    log.Snoc? ==>
      && Lawful(log.prev)
      && (log.last.Wrote? ==>
            EverEnabled(log.prev) && TrackedNow(log.prev, log.last.name) && Stay(log.prev, log.last.name) == 0)
  }

  /** In a lawful history no name is successfully written twice in one stay,
      wherever one looks. */
  lemma {:induction false} WrittenOncePerStay(log: Log<Event>, p: Log<Event>, t: string)
    requires Lawful(log) && PrefixOf(p, log)
    ensures Lawful(p) && Stay(p, t) <= 1 && (Stay(p, t) == 1 ==> TrackedNow(p, t) && EverEnabled(p))
  {
    if p != log {
      WrittenOncePerStay(log.prev, p, t);
    } else if log.Snoc? {
      WrittenOncePerStay(log.prev, log.prev, t);
    }
  }

  class Forwarding {
    var on: bool
    var targets: seq<string>
    var configured: set<string>
    ghost var log: Log<Event>

    ghost predicate Valid()
      reads this
    {
      && Lawful(log) && Distinct(targets)
      && (on <==> EverEnabled(log))
      && (forall t :: t in targets <==> TrackedNow(log, t))
      && (forall t | t in configured :: t in targets)
      && forall t :: Stay(log, t) == if t in configured then 1 else 0
    }

    constructor ()
      ensures Valid() && !on && targets == [] && configured == {} && log == Empty
    {
      on, targets, configured, log := false, [], {}, Empty;
    }

    /** Writes every target not configured yet, stopping at the first failure; the
        write of targets[i] succeeds as works(i). */
    method Apply(works: nat -> bool) returns (failed: bool)
      requires Valid() && on
      modifies this`configured, this`log
      ensures Valid() && PrefixOf(old(log), log) && old(configured) <= configured
      ensures !failed <==> forall t | t in targets :: t in configured
      ensures (forall i: nat | i < |targets| && targets[i] !in old(configured) :: works(i)) ==> !failed
    {
      for i := 0 to |targets|
        invariant Valid() && PrefixOf(old(log), log) && old(configured) <= configured
        invariant forall t | t in targets[..i] :: t in configured
        invariant forall t | t in targets[i..] && t in configured :: t in old(configured)
      {
        var target := targets[i];
        if target in configured {
          continue;
        }
        log := Snoc(log, Wrote(target, works(i)));
        if !works(i) {
          return true;
        }
        configured := configured + {target};
        assert forall t :: Stay(log, t) == if t in configured then 1 else 0;
      }
      assert targets[..|targets|] == targets;
      return false;
    }

    /** Records the resolved targets, forgetting those gone, and applies to the new
        ones once forwarding is on. */
    method Track(names: seq<string>, works: nat -> bool) returns (failed: bool)
      requires Valid()
      modifies this`targets, this`configured, this`log
      ensures Valid() && PrefixOf(Snoc(old(log), Tracked(names)), log)
      ensures Deduped(names, targets)
      ensures !on ==> !failed && log == Snoc(old(log), Tracked(names))
      ensures on ==> (!failed <==> forall t | t in targets :: t in configured)
      ensures (forall i: nat :: works(i)) ==> !failed
    {
      targets := Dedupe(names);
      configured := set t | t in configured && t in targets;
      log := Snoc(log, Tracked(names));
      if !on {
        return false;
      }
      failed := Apply(works);
    }

    method Enable(works: nat -> bool) returns (failed: bool)
      requires Valid()
      modifies this`on, this`configured, this`log
      ensures Valid() && on && PrefixOf(Snoc(old(log), Enabled), log)
      ensures !failed <==> forall t | t in targets :: t in configured
      ensures (forall i: nat :: works(i)) ==> !failed
    {
      on := true;
      log := Snoc(log, Enabled);
      failed := Apply(works);
    }
  }
}
