/** How galactic-ipam picks its mode and its pools (internal/cniipam/config.go,
    internal/cniipam/allocate.go), and whether DEL and CHECK address the pools ADD
    allocated from, although the local-IPAM flag is read again at each call. */
module Ipam {
  import opened Common

  datatype Address = Address(address: string, gateway: string)

  /** The ipam block; "" is an omitted field. */
  datatype Config = Config(
    addresses: seq<Address>, staticIP: string, ipv6Subnet: string, ipv4Subnet: string, families: seq<string>)

  const IPV6 := "ipv6"
  const IPV4 := "ipv4"
  const DEFAULT_POOL := "fd00:10:ff01::/64"

  datatype Cidr = Cidr(v4: bool, ip: string, bits: nat)
  datatype Ip = Ip(v4: bool, text: string)

  /** The parsers of CIDRs and addresses, and the subnet checks. */
  datatype Env = Env(
    cidr: string -> Option<Cidr>, ip: string -> Option<Ip>, validV6: string -> bool, validV4: string -> bool)

  // ---- Addresses decided upstream

  datatype Parsed = Parsed(ipv6: Option<Cidr>, ipv6Gateway: Option<Ip>, ipv4: Option<Cidr>, ipv4Gateway: Option<Ip>)

  const NOTHING := Parsed(None, None, None, None)

  predicate GatewayFits(env: Env, a: Address, v4: bool) {
    a.gateway == "" || (env.ip(a.gateway).Some? && env.ip(a.gateway).value.v4 == v4)
  }

  /** One entry on its own: a CIDR, a host route if it is IPv4, and a gateway of
      its own family. */
  predicate EntryOk(env: Env, a: Address) {
    && env.cidr(a.address).Some?
    && GatewayFits(env, a, env.cidr(a.address).value.v4)
    && (env.cidr(a.address).value.v4 ==> env.cidr(a.address).value.bits == 32)
  }

  predicate IsV4(env: Env, a: Address) {
    env.cidr(a.address).Some? && env.cidr(a.address).value.v4
  }

  ghost predicate OnePerFamily(env: Env, addresses: seq<Address>) {
    forall i, j | 0 <= i < j < |addresses| :: IsV4(env, addresses[i]) != IsV4(env, addresses[j])
  }

  function Gateway(env: Env, a: Address): Option<Ip> {
    if a.gateway == "" then None else env.ip(a.gateway)
  }

  /** The parsed gateway is the entry's, and there is none where it names none. */
  ghost predicate IsGatewayOf(env: Env, g: Option<Ip>, a: Address) {
    (g.Some? <==> a.gateway != "") && (g.Some? ==> env.ip(a.gateway) == g)
  }

  /** The parsed form holds an entry exactly as given. */
  ghost predicate Carries(env: Env, p: Parsed, a: Address) {
    if IsV4(env, a) then p.ipv4 == env.cidr(a.address) && IsGatewayOf(env, p.ipv4Gateway, a)
    else p.ipv6 == env.cidr(a.address) && IsGatewayOf(env, p.ipv6Gateway, a)
  }

  ghost predicate HasFamily(env: Env, addresses: seq<Address>, v4: bool) {
    exists i :: 0 <= i < |addresses| && IsV4(env, addresses[i]) == v4
  }

  /** The parsed form after one more entry. */
  function Take(env: Env, p: Parsed, a: Address): Option<Parsed> {
    if !EntryOk(env, a) then None
    else if IsV4(env, a) then
      if p.ipv4.Some? then None else Some(p.(ipv4 := env.cidr(a.address), ipv4Gateway := Gateway(env, a)))
    else
      if p.ipv6.Some? then None else Some(p.(ipv6 := env.cidr(a.address), ipv6Gateway := Gateway(env, a)))
  }

  function TakeAll(env: Env, addresses: seq<Address>): Option<Parsed> {
    if addresses == [] then Some(NOTHING)
    else
      var p := TakeAll(env, addresses[..|addresses| - 1]);
      if p.None? then None else Take(env, p.value, addresses[|addresses| - 1])
  }

  ghost predicate Acceptable(env: Env, addresses: seq<Address>) {
    (forall i | 0 <= i < |addresses| :: EntryOk(env, addresses[i])) && OnePerFamily(env, addresses)
  }

  lemma {:induction false} FamiliesTaken(env: Env, addresses: seq<Address>)
    ensures var p := TakeAll(env, addresses);
            p.Some? ==>
              && (p.value.ipv4.Some? <==> HasFamily(env, addresses, true))
              && (p.value.ipv6.Some? <==> HasFamily(env, addresses, false))
  {
    if addresses != [] {
      var init, last := addresses[..|addresses| - 1], |addresses| - 1;
      FamiliesTaken(env, init);
      assert HasFamily(env, addresses, IsV4(env, addresses[last]));
      forall v4 | HasFamily(env, init, v4)
        ensures HasFamily(env, addresses, v4)
      {
        var i :| 0 <= i < |init| && IsV4(env, init[i]) == v4;
        assert IsV4(env, addresses[i]) == v4;
      }
      forall v4 | HasFamily(env, addresses, v4) && IsV4(env, addresses[last]) != v4
        ensures HasFamily(env, init, v4)
      {
        var i :| 0 <= i < |addresses| && IsV4(env, addresses[i]) == v4;
        assert IsV4(env, init[i]) == v4;
      }
    }
  }

  /** Accepted are exactly the lists of well-formed entries with at most one per
      family. */
  lemma {:induction false} AcceptsExactly(env: Env, addresses: seq<Address>)
    ensures TakeAll(env, addresses).Some? <==> Acceptable(env, addresses)
  {
    if addresses != [] {
      var init, last := addresses[..|addresses| - 1], |addresses| - 1;
      AcceptsExactly(env, init);
      FamiliesTaken(env, init);
      if Acceptable(env, addresses) {
        assert Acceptable(env, init);
        assert !HasFamily(env, init, IsV4(env, addresses[last]));
      }
    }
  }

  /** Every accepted entry is kept exactly, prefix length and gateway included. */
  lemma {:induction false} KeptExactly(env: Env, addresses: seq<Address>, i: nat)
    requires i < |addresses| && TakeAll(env, addresses).Some?
    ensures Carries(env, TakeAll(env, addresses).value, addresses[i])
  {
    var init := addresses[..|addresses| - 1];
    if i < |init| {
      KeptExactly(env, init, i);
    }
  }

  method ParseAddresses(env: Env, addresses: seq<Address>) returns (r: Option<Parsed>)
    ensures r == if addresses == [] then None else TakeAll(env, addresses)
  {
    var p := NOTHING;
    for i := 0 to |addresses|
      invariant TakeAll(env, addresses[..i]) == Some(p)
    {
      var a := addresses[i];
      assert addresses[..i + 1][..i] == addresses[..i];
      var c := env.cidr(a.address);
      if c.None? || !GatewayFits(env, a, c.value.v4)
         || (c.value.v4 && (p.ipv4.Some? || c.value.bits != 32)) || (!c.value.v4 && p.ipv6.Some?) {
        Refused(env, addresses, i + 1);
        return None;
      }
      if c.value.v4 {
        p := p.(ipv4 := c, ipv4Gateway := Gateway(env, a));
      } else {
        p := p.(ipv6 := c, ipv6Gateway := Gateway(env, a));
      }
    }
    assert addresses[..|addresses|] == addresses;
    FamiliesTaken(env, addresses);
    if p.ipv6.None? && p.ipv4.None? {
      assert addresses != [] ==> HasFamily(env, addresses, IsV4(env, addresses[0]));
      return None;
    }
    return Some(p);
  }

  lemma {:induction false} Refused(env: Env, addresses: seq<Address>, n: nat)
    requires n <= |addresses| && TakeAll(env, addresses[..n]).None?
    ensures TakeAll(env, addresses).None? && addresses != []
    decreases |addresses| - n
  {
    if n < |addresses| {
      assert addresses[..n + 1][..n] == addresses[..n];
      Refused(env, addresses, n + 1);
    } else {
      assert addresses[..n] == addresses;
    }
  }

  // ---- Mode and pools

  predicate FamilyOk(f: string) {
    f == IPV6 || f == IPV4
  }

  predicate NoSubnet(c: Config) {
    c.ipv6Subnet == "" && c.ipv4Subnet == ""
  }

  /** The pool path: no addresses and no static address. */
  predicate PoolPath(c: Config) {
    c.addresses == [] && c.staticIP == ""
  }

  predicate Valid(env: Env, c: Config) {
    && (c.addresses != [] ==> c.staticIP == "" && NoSubnet(c) && TakeAll(env, c.addresses).Some?)
    && (c.ipv6Subnet != "" ==> env.validV6(c.ipv6Subnet))
    && (c.ipv4Subnet != "" ==> env.validV4(c.ipv4Subnet))
    && forall f | f in c.families :: FamilyOk(f)
  }

  /** The pool a family ends up with: only what address_families leaves. */
  function Narrowed(c: Config, family: string, subnet: string): string {
    if c.families != [] && family !in c.families then "" else subnet
  }

  /** parseConf with the local-IPAM flag: None is a refusal. */
  function Parse(env: Env, c: Config, local: bool): Option<Config> {
    if !Valid(env, c) then None
    else if !PoolPath(c) then Some(c)
    else
      var v6 := if NoSubnet(c) && local then DEFAULT_POOL else c.ipv6Subnet;
      var r := c.(ipv6Subnet := Narrowed(c, IPV6, v6), ipv4Subnet := Narrowed(c, IPV4, c.ipv4Subnet));
      if c.families != [] && NoSubnet(r) then None else Some(r)
  }

  /** The family's pool is asked for: no family is named, or this one is. */
  predicate Wanted(c: Config, family: string) {
    c.families == [] || family in c.families
  }

  /** What an accepted config comes to: on the pool path each family's pool is kept
      exactly when it is wanted, the default one standing in for none at all, and
      of pools that families were named for one is left; nothing else changes. */
  lemma PoolsKeptExactly(env: Env, c: Config, local: bool)
    requires Parse(env, c, local).Some?
    ensures var r := Parse(env, c, local).value;
            && r.addresses == c.addresses && r.staticIP == c.staticIP && r.families == c.families
            && (!PoolPath(c) ==> r == c)
            && (PoolPath(c) ==>
                  && r.ipv4Subnet == (if Wanted(c, IPV4) then c.ipv4Subnet else "")
                  && (Wanted(c, IPV6) && c.ipv6Subnet != "" ==> r.ipv6Subnet == c.ipv6Subnet)
                  && (Wanted(c, IPV6) && NoSubnet(c) && local ==> r.ipv6Subnet == DEFAULT_POOL)
                  && (r.ipv6Subnet != "" ==> Wanted(c, IPV6) && (c.ipv6Subnet != "" || (NoSubnet(c) && local)))
                  && (c.families != [] ==> !NoSubnet(r)))
  {
  }

  method ParseConf(env: Env, raw: Config, local: bool) returns (r: Option<Config>)
    ensures r == Parse(env, raw, local)
  {
    var conf := raw;
    if conf.addresses != [] {
      if conf.staticIP != "" || conf.ipv6Subnet != "" || conf.ipv4Subnet != "" {
        return None;
      }
      var parsed := ParseAddresses(env, conf.addresses);
      if parsed.None? {
        return None;
      }
    }
    if conf.ipv6Subnet != "" && !env.validV6(conf.ipv6Subnet) {
      return None;
    }
    if conf.ipv4Subnet != "" && !env.validV4(conf.ipv4Subnet) {
      return None;
    }
    if conf.addresses == [] && conf.staticIP == "" && conf.ipv6Subnet == "" && conf.ipv4Subnet == "" {
      if local {
        conf := conf.(ipv6Subnet := DEFAULT_POOL);
      }
    }
    if conf.families != [] {
      var wantV6, wantV4 := false, false;
      for i := 0 to |conf.families|
        invariant forall f | f in conf.families[..i] :: FamilyOk(f)
        invariant (wantV6 <==> IPV6 in conf.families[..i]) && (wantV4 <==> IPV4 in conf.families[..i])
      {
        assert conf.families[..i + 1] == conf.families[..i] + [conf.families[i]];
        if conf.families[i] == IPV6 {
          wantV6 := true;
        } else if conf.families[i] == IPV4 {
          wantV4 := true;
        } else {
          assert !FamilyOk(conf.families[i]) && conf.families[i] in raw.families;
          return None;
        }
      }
      assert conf.families[..|conf.families|] == conf.families;
      if conf.staticIP == "" && conf.addresses == [] {
        if !wantV6 {
          conf := conf.(ipv6Subnet := "");
        }
        if !wantV4 {
          conf := conf.(ipv4Subnet := "");
        }
        if conf.ipv6Subnet == "" && conf.ipv4Subnet == "" {
          return None;
        }
      }
    }
    return Some(conf);
  }

  /** The pools ADD allocates from, by family; None when it allocates from none. */
  function AddPools(env: Env, raw: Config, local: bool): Option<(string, string)> {
    var c := Parse(env, raw, local);
    if c.None? || !PoolPath(c.value) || NoSubnet(c.value) then None
    else Some((c.value.ipv6Subnet, c.value.ipv4Subnet))
  }

  function EffectiveIPv6Subnet(c: Config): string {
    if c.ipv6Subnet != "" || c.ipv4Subnet != "" then c.ipv6Subnet else DEFAULT_POOL
  }

  /** The pools DEL and CHECK address. */
  function LaterPools(env: Env, raw: Config, local: bool): Option<(string, string)> {
    var c := Parse(env, raw, local);
    if c.None? || !PoolPath(c.value) then None
    else Some((EffectiveIPv6Subnet(c.value), c.value.ipv4Subnet))
  }

  /** The one case: families are named, no subnet is, and the flag went off. */
  predicate FlagMatters(raw: Config, atAdd: bool, later: bool) {
    raw.families != [] && NoSubnet(raw) && atAdd && !later
  }

  /** If ADD allocated from pools, DEL and CHECK address exactly those, whatever the
      flag is at each call, except in the one case, where they are refused. */
  lemma SamePools(env: Env, raw: Config, atAdd: bool, later: bool)
    requires AddPools(env, raw, atAdd).Some?
    ensures LaterPools(env, raw, later) == AddPools(env, raw, atAdd) <==> !FlagMatters(raw, atAdd, later)
    ensures FlagMatters(raw, atAdd, later) ==> Parse(env, raw, later).None?
  {
  }

  // ---- The markers on disk

  type Store = map<string, set<string>>

  function Holders(s: Store, pool: string): set<string> {
    if pool in s then s[pool] else {}
  }

  function Put(s: Store, pool: string, c: string): Store {
    if pool == "" then s else s[pool := Holders(s, pool) + {c}]
  }

  function Drop(s: Store, pool: string, c: string): Store {
    if pool == "" then s else s[pool := Holders(s, pool) - {c}]
  }

  function Add(s: Store, pools: (string, string), c: string): Store {
    Put(Put(s, pools.0, c), pools.1, c)
  }

  function Del(s: Store, pools: Option<(string, string)>, c: string): Store {
    if pools.None? then s else Drop(Drop(s, pools.value.0, c), pools.value.1, c)
  }

  predicate Holds(s: Store, pools: (string, string), c: string) {
    && (pools.0 != "" ==> c in Holders(s, pools.0))
    && (pools.1 != "" ==> c in Holders(s, pools.1))
  }

  /** CHECK accepts: the config is not refused, and on the pool path the container
      holds an allocation in every pool. */
  predicate Check(env: Env, raw: Config, local: bool, s: Store, c: string) {
    && Parse(env, raw, local).Some?
    && (LaterPools(env, raw, local).Some? ==> Holds(s, LaterPools(env, raw, local).value, c))
  }

  lemma DelUndoesAdd(s: Store, pools: (string, string), c: string, pool: string)
    requires c !in Holders(s, pool)
    ensures Holds(Add(s, pools, c), pools, c)
    ensures Holders(Del(Add(s, pools, c), Some(pools), c), pool) == Holders(s, pool)
  {
    var t := Put(s, pools.0, c);
    assert Holders(t, pool) - {c} == Holders(s, pool);
    assert Holders(Put(t, pools.1, c), pool) - {c} == Holders(s, pool);
  }

  /** CHECK accepts after ADD, DEL removes exactly what ADD stored, and CHECK does not
      accept after that, for any flag at each call but the one case; there CHECK is
      refused and the allocation is left behind. */
  lemma AddThenDel(env: Env, raw: Config, atAdd: bool, later: bool, s: Store, c: string, pool: string)
    requires AddPools(env, raw, atAdd).Some? && c !in Holders(s, pool)
    ensures var pools := AddPools(env, raw, atAdd).value;
            var added := Add(s, pools, c);
            var deleted := Del(added, LaterPools(env, raw, later), c);
            && (Check(env, raw, later, added, c) <==> !FlagMatters(raw, atAdd, later))
            && !Check(env, raw, later, deleted, c)
            && (!FlagMatters(raw, atAdd, later) ==> Holders(deleted, pool) == Holders(s, pool))
            && (FlagMatters(raw, atAdd, later) ==> deleted == added && c in Holders(deleted, DEFAULT_POOL))
  {
    SamePools(env, raw, atAdd, later);
    DelUndoesAdd(s, AddPools(env, raw, atAdd).value, c, pool);
  }

  /** Such a config: one family named and no subnet, added with the flag on. */
  lemma FlagOffLeaves(env: Env, c: string)
    ensures var raw := Config([], "", "", "", [IPV6]);
            && AddPools(env, raw, true).Some? && FlagMatters(raw, true, false)
            && var added := Add(map[], AddPools(env, raw, true).value, c);
               && !Check(env, raw, false, added, c)
               && c in Holders(Del(added, LaterPools(env, raw, false), c), DEFAULT_POOL)
  {
    var raw := Config([], "", "", "", [IPV6]);
    assert IPV6 in raw.families;
    AddThenDel(env, raw, true, false, map[], c, DEFAULT_POOL);
  }

  datatype Fault = Unopened(pool: string) | Missing(pool: string)

  class Disk {
    var store: Store

    constructor ()
      ensures store == map[]
    {
      store := map[];
    }

    /** Releases each family on its own: one whose pool does not open keeps its
        marker and does not stop the other. */
    method Deallocate(container: string, conf: Config, opens: string -> bool)
      modifies this
      ensures !PoolPath(conf) ==> store == old(store)
      ensures PoolPath(conf) ==>
                var v6, v4 := EffectiveIPv6Subnet(conf), conf.ipv4Subnet;
                store == Del(old(store), Some((if opens(v6) then v6 else "", if opens(v4) then v4 else "")), container)
    {
      if conf.addresses != [] || conf.staticIP != "" {
        return;
      }
      var v6 := EffectiveIPv6Subnet(conf);
      if v6 != "" && opens(v6) {
        store := Drop(store, v6, container);
      }
      if conf.ipv4Subnet != "" && opens(conf.ipv4Subnet) {
        store := Drop(store, conf.ipv4Subnet, container);
      }
    }

    /** One fault per family that does not check out. */
    method CheckAllocation(container: string, conf: Config, opens: string -> bool) returns (faults: seq<Fault>)
      ensures !PoolPath(conf) ==> faults == []
      ensures PoolPath(conf) ==>
                var v6, v4 := EffectiveIPv6Subnet(conf), conf.ipv4Subnet;
                faults == [] <==>
                  && (v6 != "" ==> opens(v6)) && (v4 != "" ==> opens(v4)) && Holds(store, (v6, v4), container)
      ensures forall f | f in faults :: if f.Unopened? then !opens(f.pool) else container !in Holders(store, f.pool)
    {
      faults := [];
      if conf.addresses != [] || conf.staticIP != "" {
        return;
      }
      var v6 := EffectiveIPv6Subnet(conf);
      if v6 != "" {
        if !opens(v6) {
          faults := faults + [Unopened(v6)];
        } else if container !in Holders(store, v6) {
          faults := faults + [Missing(v6)];
        }
      }
      var v4 := conf.ipv4Subnet;
      if v4 != "" {
        if !opens(v4) {
          faults := faults + [Unopened(v4)];
        } else if container !in Holders(store, v4) {
          faults := faults + [Missing(v4)];
        }
      }
    }
  }
}
