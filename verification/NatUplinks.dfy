/** The NAT shard's uplinks (cmd/galactic-nat/nat.go): which are configured, which
    the datapath misses, and which can forward IPv4 once NAT64 is served; and the
    identity the datapath translates with. */
module NatUplinks {
  import opened Common
  import opened Interfaces
  import opened ShardTable

  datatype Identity = Identity(sid: Addr, address6: Addr, address4: Addr, nat64: Prefix, wellKnown: bool)

  function ConfigOf(id: Identity, echo: bool): Config {
    Config(id.sid, id.address6, id.address4, id.nat64, id.wellKnown, echo)
  }

  function IdentityOf(c: Config): Identity {
    Identity(c.sid, c.pub6, c.pub4, c.nat64, c.wellKnown)
  }

  /** The fields the NAT64 promise is about; v4 is every interface whose IPv4
      forwarding was written and which was not created anew since. */
  datatype View = View(uplinks: set<string>, configured: set<string>, nat64: bool, v4: set<string>)

  ghost predicate Adopts(s: View, t: View) {
    && t.nat64 == s.nat64 && s.configured <= t.configured
    && (forall u | u in t.configured && u !in s.configured :: u in t.uplinks)
    && t.v4 == s.v4 + if s.nat64 then t.configured - s.configured else {}
  }

  /** Programming an identity, with or without an IPv4 address; stopped when an
      uplink's IPv4 forwarding could not be written. */
  ghost predicate Programs(s: View, t: View, ipv4: bool, stopped: bool) {
    && t.uplinks == s.uplinks && t.configured == s.configured
    && (if !ipv4 then t.nat64 == s.nat64 && t.v4 == s.v4
        else if stopped then t.nat64 == s.nat64 && s.v4 <= t.v4 <= s.v4 + s.uplinks
        else t.nat64 && t.v4 == s.v4 + s.uplinks)
  }

  ghost predicate Next(s: View, t: View) {
    Adopts(s, t) || exists ipv4, stopped :: Programs(s, t, ipv4, stopped)
  }

  /** Every uplink the datapath runs on while NAT64 is served has had its IPv4
      forwarding written. */
  ghost predicate Served(s: View) {
    s.nat64 ==> s.uplinks * s.configured <= s.v4
  }

  ghost predicate Unserved(s: View, u: string) {
    s.nat64 && u in s.uplinks && u in s.configured && u !in s.v4
  }

  ghost predicate Run(states: seq<View>) {
    |states| > 0 && forall i | 0 <= i < |states| - 1 :: Next(states[i], states[i + 1])
  }

  ghost predicate AlwaysServed(s: View) {
    forall states: seq<View> | Run(states) && states[0] == s :: forall i | 0 <= i < |states| :: Served(states[i])
  }

  lemma {:induction false} AllConfiguredServed(states: seq<View>, i: nat)
    requires Run(states) && i < |states| && states[0].nat64 && states[0].configured <= states[0].v4
    ensures states[i].nat64 && states[i].configured <= states[i].v4
  {
    if i > 0 {
      AllConfiguredServed(states, i - 1);
      assert Next(states[i - 1], states[i]);
    }
  }

  /** With NAT64 on, and as long as no interface is created anew, every later state
      is served exactly when every configured uplink, resolved now or not, has had
      its IPv4 forwarding written. */
  lemma ServedForever(s: View)
    requires s.nat64
    ensures AlwaysServed(s) <==> s.configured <= s.v4
  {
    if s.configured <= s.v4 {
      forall states: seq<View>, i | Run(states) && states[0] == s && 0 <= i < |states|
        ensures Served(states[i])
      {
        AllConfiguredServed(states, i);
      }
    } else {
      var u :| u in s.configured && u !in s.v4;
      var t := s.(uplinks := {u});
      assert Adopts(s, t);
      assert Run([s, t]) && !Served([s, t][1]) && [s, t][0] == s;
    }
  }

  /** Programming NAT64 keeps its promise for good exactly when no configured
      uplink is unresolved at that call. */
  lemma ProgramServesForever(s: View, t: View)
    requires Programs(s, t, true, false)
    ensures Served(t)
    ensures AlwaysServed(t) <==> s.configured <= s.uplinks + s.v4
  {
    ServedForever(t);
  }

  /** An interface deleted and created again under its name has forwarding off. */
  function Recreated(s: View, u: string): View {
    s.(v4 := s.v4 - {u})
  }

  /** Passes of the watcher, without a new identity. */
  ghost predicate Watched(states: seq<View>) {
    |states| > 0 && forall i | 0 <= i < |states| - 1 :: Adopts(states[i], states[i + 1])
  }

  ghost predicate ServedWhileWatched(s: View, u: string) {
    forall states: seq<View> | Watched(states) && states[0] == s ::
      forall i | 0 <= i < |states| :: !Unserved(states[i], u)
  }

  lemma {:induction false} NewUplinkWritten(states: seq<View>, i: nat, u: string)
    requires Watched(states) && i < |states| && states[0].nat64 && u !in states[0].configured
    ensures states[i].nat64 && (u in states[i].configured ==> u in states[i].v4)
  {
    if i > 0 {
      NewUplinkWritten(states, i - 1, u);
      assert Adopts(states[i - 1], states[i]);
    }
  }

  /** The watcher writes an interface that was created anew exactly when it was never
      configured: what is configured is not forgotten when it goes. */
  lemma RecreatedExactly(s: View, u: string)
    requires s.nat64
    ensures ServedWhileWatched(Recreated(s, u), u) <==> u !in s.configured
  {
    var t := Recreated(s, u);
    if u in s.configured {
      var back := t.(uplinks := {u});
      assert Adopts(t, back) && Watched([t, back]) && [t, back][0] == t && Unserved([t, back][1], u);
    } else {
      forall states: seq<View>, i | Watched(states) && states[0] == t && 0 <= i < |states|
        ensures !Unserved(states[i], u)
      {
        NewUplinkWritten(states, i, u);
      }
    }
  }

  /** An uplink configured, lost while NAT64 is programmed, and back: the datapath
      runs on it with IPv4 forwarding never written. */
  lemma ReturningUplinkNotServed(u: string)
    ensures exists states: seq<View> ::
              Run(states) && states[0] == View({}, {}, false, {}) && Unserved(states[|states| - 1], u)
  {
    var s0 := View({}, {}, false, {});
    var s1 := View({u}, {u}, false, {});
    var s2 := View({}, {u}, false, {});
    var s3 := View({}, {u}, true, {});
    var s4 := View({u}, {u}, true, {});
    assert Adopts(s0, s1) && Adopts(s1, s2) && Programs(s2, s3, true, false) && Adopts(s3, s4);
    var states := [s0, s1, s2, s3, s4];
    assert Run(states);
  }

  class NatDatapath {
    var uplinks: seq<string>
    var configured: set<string>
    var missing: seq<string>
    var coverageUplinks: seq<string>
    var nat64: bool
    const echoResponder: bool
    const shardConfig: ShardConfigTable
    ghost var v4: set<string>
    ghost var covered: seq<string>

    ghost function Abs(): View
      reads this
    {
      View((set u | u in uplinks), configured, nat64, v4)
    }

    /** The uplinks checked and the ones missed always belong together. */
    ghost predicate Valid()
      reads this
    {
      missing == Kept(coverageUplinks, Outside(covered))
    }

    constructor (echo: bool, table: ShardConfigTable)
      ensures Valid() && Abs() == View({}, {}, false, {}) && missing == [] && coverageUplinks == []
      ensures echoResponder == echo && shardConfig == table
    {
      uplinks, configured, missing, coverageUplinks, nat64 := [], {}, [], [], false;
      echoResponder, shardConfig := echo, table;
      v4, covered := {}, [];
    }

    method SetCoverage(links: seq<string>, names: seq<string>, ghost cover: seq<string>) returns (changed: bool)
      requires names == Kept(links, Outside(cover))
      modifies this`coverageUplinks, this`missing, this`covered
      ensures Valid() && coverageUplinks == links && missing == names
      ensures changed <==> old(missing) != names
    {
      coverageUplinks, covered := links, cover;
      if missing == names {
        return false;
      }
      missing := names;
      return true;
    }

    /** The writes of some link of that name worked. */
    ghost predicate Written(links: seq<string>, w6: nat -> bool, w4: nat -> bool, u: string)
      reads this
    {
      exists i: nat :: i < |links| && links[i] == u && w6(i) && (nat64 ==> w4(i))
    }

    /** Configures the new uplinks; for links[i] the IPv6 and IPv4 writes succeed
        as w6(i) and w4(i). */
    method AdoptUplinks(links: seq<string>, w6: nat -> bool, w4: nat -> bool) returns (ready: seq<string>)
      modifies this`uplinks, this`configured, this`v4
      ensures uplinks == links && Adopts(old(Abs()), Abs())
      ensures forall u :: u in ready <==> u in links && u in configured
      ensures forall u :: u in configured <==> u in old(configured) || Written(links, w6, w4, u)
    {
      uplinks := links;
      ready := [];
      for i := 0 to |links|
        invariant uplinks == links && old(configured) <= configured
        invariant forall u | u in configured && u !in old(configured) :: u in links && Written(links, w6, w4, u)
        invariant v4 == old(v4) + if nat64 then configured - old(configured) else {}
        invariant forall u :: u in ready <==> u in links[..i] && u in configured
        invariant forall k: nat | k < i && w6(k) && (nat64 ==> w4(k)) :: links[k] in configured
      {
        assert links[..i + 1] == links[..i] + [links[i]];
        var u := links[i];
        if u !in configured {
          if !w6(i) || (nat64 && !w4(i)) {
            continue;
          }
          configured := configured + {u};
          if nat64 {
            v4 := v4 + {u};
          }
        }
        ready := ready + [u];
      }
      assert links[..|links|] == links;
    }

    /** The forwarding part of Program: IPv4 forwarding on every uplink, for an
        identity with an IPv4 address; written to uplinks[i] as w4(i) allows. */
    method ForwardIPv4(ipv4: bool, w4: nat -> bool) returns (stopped: bool)
      modifies this`nat64, this`v4
      ensures Programs(old(Abs()), Abs(), ipv4, stopped)
      ensures stopped <==> ipv4 && exists i: nat :: i < |uplinks| && !w4(i)
    {
      if ipv4 {
        for i := 0 to |uplinks|
          invariant nat64 == old(nat64) && v4 == old(v4) + set u | u in uplinks[..i]
          invariant forall k: nat | k < i :: w4(k)
        {
          assert uplinks[..i + 1] == uplinks[..i] + [uplinks[i]];
          if !w4(i) {
            return true;
          }
          v4 := v4 + {uplinks[i]};
        }
        assert uplinks[..|uplinks|] == uplinks;
        nat64 := true;
      }
      return false;
    }

    ghost predicate Stops(id: Identity, w4: nat -> bool)
      reads this
    {
      id.address4 != NoAddr && exists i: nat :: i < |uplinks| && !w4(i)
    }

    /** Forwarding first, then the row, unless it reads back as this identity's. A
        refused or failed row leaves NAT64 on. */
    method Program(id: Identity, w4: nat -> bool, readable: bool, puts: bool) returns (failed: bool)
      modifies this`nat64, this`v4, shardConfig
      ensures Programs(old(Abs()), Abs(), id.address4 != NoAddr, Stops(id, w4))
      ensures var config := ConfigOf(id, echoResponder);
              var kept := readable && FromWire(old(shardConfig.row)) == Some(config);
              && (failed <==> Stops(id, w4) || (!kept && (ToWire(config).None? || !puts)))
              && (failed || kept ==> shardConfig.row == old(shardConfig.row))
              && (!failed && !kept ==> Some(shardConfig.row) == ToWire(config))
    {
      var stopped := ForwardIPv4(id.address4 != NoAddr, w4);
      if stopped {
        return true;
      }
      var config := ConfigOf(id, echoResponder);
      var current := shardConfig.Get(readable);
      if current == Some(config) {
        return false;
      }
      failed := shardConfig.Set(config, puts);
    }

    method Clear(readable: bool, puts: bool) returns (failed: bool)
      modifies shardConfig
      ensures failed <==> !puts && !(readable && FromWire(old(shardConfig.row)).None?)
      ensures if failed then shardConfig.row == old(shardConfig.row) else FromWire(shardConfig.row).None?
    {
      if readable {
        var current := shardConfig.Get(true);
        if current.None? {
          return false;
        }
      }
      failed := shardConfig.Clear(puts);
    }

    /** The identity the datapath translates with; none where the row cannot be read. */
    method Programmed(readable: bool) returns (r: Option<Identity>)
      ensures r.Some? <==> readable && FromWire(shardConfig.row).Some?
      ensures forall id, echo | readable && FromWire(shardConfig.row) == Some(ConfigOf(id, echo)) :: r == Some(id)
    {
      var c := shardConfig.Get(readable);
      r := if c.Some? then Some(IdentityOf(c.value)) else None;
    }

    /** The uplinks safe to run the datapath on. */
    ghost predicate Ready(ready: seq<string>)
      reads this
    {
      forall u :: u in ready <==> u in uplinks && u in configured
    }

    /** One pass of watchUplinks; cover tells what the datapath covers of the
        ready uplinks. */
    method Pass(resolved: bool, links: seq<string>, w6: nat -> bool, w4: nat -> bool, cover: seq<string> -> seq<string>)
      returns (nudge: bool)
      requires Valid()
      modifies this`uplinks, this`configured, this`v4, this`coverageUplinks, this`missing, this`covered
      ensures Valid() && (nudge <==> old(missing) != missing)
      ensures !resolved ==> Abs() == old(Abs()) && missing == old(missing) && coverageUplinks == old(coverageUplinks)
      ensures resolved ==> coverageUplinks == uplinks == links && Adopts(old(Abs()), Abs())
      ensures resolved ==> forall u :: u in configured <==> u in old(configured) || Written(links, w6, w4, u)
      ensures resolved ==> exists ready :: Ready(ready) && missing == Kept(links, Outside(cover(ready)))
      ensures resolved && (forall s, u | u in cover(s) :: u in s) ==>
                forall u | u in links && u !in missing :: u in configured
    {
      if !resolved {
        return false;
      }
      var ready := AdoptUplinks(links, w6, w4);
      var now := cover(ready);
      var names := Uncovered(links, now);
      nudge := SetCoverage(links, names, now);
      assert Ready(ready);
    }
  }
}
