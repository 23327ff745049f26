/** Addresses along the plugin chain: galactic-ipam's delegate result
    (internal/cniipam/result.go), the master plugin's result
    (internal/cnimaster/result.go, internal/cni/result.go, internal/cnitap/result.go),
    and what galactic-bgp reads back from it (internal/cnibgp/prevresult.go) and
    advertises (internal/cnibgp/bgp.go). */
module ResultChain {
  import opened Common

  /** An IPv4-mapped IPv6 address is an IPv4 address to the code, and so here. */
  datatype Ip = V4(value: nat) | V6(value: nat)

  datatype Net = Net(ip: Ip, bits: nat)

  datatype IpamResult = IpamResult(
    ipv6Subnet: Option<Net>, ipv6Gateway: Option<Ip>, ipv4Address: Option<Ip>, ipv4Gateway: Option<Ip>,
    routes: seq<Net>)

  const NOTHING := IpamResult(None, None, None, None, [])

  /** Each family's field holds that family, and a gateway has an address. */
  predicate WellFormed(r: IpamResult) {
    && (r.ipv6Subnet.Some? ==> r.ipv6Subnet.value.ip.V6?)
    && (r.ipv4Address.Some? ==> r.ipv4Address.value.V4?)
    && (r.ipv6Gateway.Some? ==> r.ipv6Subnet.Some?)
    && (r.ipv4Gateway.Some? ==> r.ipv4Address.Some?)
  }

  predicate HasAddress(r: IpamResult) {
    r.ipv6Subnet.Some? || r.ipv4Address.Some?
  }

  datatype IpConfig = IpConfig(address: Net, gateway: Option<Ip>, iface: Option<nat>)
  datatype Interface = Interface(name: string, sandbox: string)
  datatype Result = Result(interfaces: seq<Interface>, ips: seq<IpConfig>, routes: seq<Net>)

  /** The addresses of a result, IPv6 first, the IPv4 one with the given mask. */
  function IpConfigs(r: IpamResult, v4Bits: nat, iface: Option<nat>): seq<IpConfig> {
    (if r.ipv6Subnet.Some? then [IpConfig(r.ipv6Subnet.value, r.ipv6Gateway, iface)] else [])
    + (if r.ipv4Address.Some? then [IpConfig(Net(r.ipv4Address.value, v4Bits), r.ipv4Gateway, iface)] else [])
  }

  // ---- Delegation

  method BuildCniResult(res: Option<IpamResult>) returns (result: Result)
    ensures result.interfaces == []
    ensures result.ips == if res.Some? then IpConfigs(res.value, 32, None) else []
    ensures result.routes == if res.Some? then res.value.routes else []
  {
    result := Result([], [], []);
    if res.None? {
      return;
    }
    var r := res.value;
    if r.ipv6Subnet.Some? {
      result := result.(ips := result.ips + [IpConfig(r.ipv6Subnet.value, r.ipv6Gateway, None)]);
    }
    if r.ipv4Address.Some? {
      result := result.(ips := result.ips + [IpConfig(Net(r.ipv4Address.value, 32), r.ipv4Gateway, None)]);
    }
    for i := 0 to |r.routes|
      invariant result == Result([], IpConfigs(r, 32, None), r.routes[..i])
    {
      assert r.routes[..i + 1] == r.routes[..i] + [r.routes[i]];
      result := result.(routes := result.routes + [r.routes[i]]);
    }
    assert r.routes[..|r.routes|] == r.routes;
  }

  /** The local shape after one more address: the last of each family wins. */
  function Absorb(r: IpamResult, c: IpConfig): IpamResult {
    if c.address.ip.V4? then r.(ipv4Address := Some(c.address.ip), ipv4Gateway := c.gateway)
    else r.(ipv6Subnet := Some(c.address), ipv6Gateway := c.gateway)
  }

  function AbsorbAll(ips: seq<IpConfig>): IpamResult {
    if ips == [] then NOTHING else Absorb(AbsorbAll(ips[..|ips| - 1]), ips[|ips| - 1])
  }

  function ToIpamResult(result: Result): IpamResult {
    AbsorbAll(result.ips).(routes := result.routes)
  }

  lemma {:induction false} AbsorbKeepsRoutes(ips: seq<IpConfig>)
    ensures AbsorbAll(ips).routes == []
  {
    if ips != [] {
      AbsorbKeepsRoutes(ips[..|ips| - 1]);
    }
  }

  method ResultToIpamResult(result: Result) returns (r: IpamResult)
    ensures r == ToIpamResult(result)
  {
    r := NOTHING;
    for i := 0 to |result.ips|
      invariant r == AbsorbAll(result.ips[..i])
    {
      assert result.ips[..i + 1][..i] == result.ips[..i];
      var c := result.ips[i];
      if c.address.ip.V4? {
        r := r.(ipv4Address := Some(c.address.ip), ipv4Gateway := c.gateway);
        continue;
      }
      r := r.(ipv6Subnet := Some(c.address), ipv6Gateway := c.gateway);
    }
    assert result.ips[..|result.ips|] == result.ips;
    AbsorbKeepsRoutes(result.ips);
    ghost var all := r;
    for i := 0 to |result.routes|
      invariant r == all.(routes := result.routes[..i])
    {
      assert result.routes[..i + 1] == result.routes[..i] + [result.routes[i]];
      r := r.(routes := r.routes + [result.routes[i]]);
    }
    assert result.routes[..|result.routes|] == result.routes;
  }

  /** Reading the addresses back undoes writing them, whatever mask and interface
      they were written with. */
  lemma AbsorbsConfigs(r: IpamResult, v4Bits: nat, iface: Option<nat>)
    requires WellFormed(r)
    ensures AbsorbAll(IpConfigs(r, v4Bits, iface)) == r.(routes := [])
  {
    var ips := IpConfigs(r, v4Bits, iface);
    if |ips| == 2 {
      assert ips[..1][..0] == [] && AbsorbAll(ips[..1]) == Absorb(NOTHING, ips[0]);
    } else if |ips| == 1 {
      assert ips[..0] == [];
    }
  }

  // ---- The master plugins' results

  datatype Kind = Veth | Tap

  datatype Attachment = Attachment(kind: Kind, host: string, guest: string, netns: string)

  class CniResult {
    var interfaces: seq<Interface>
    var ips: seq<IpConfig>
    var routes: seq<Net>

    constructor (links: seq<Interface>)
      ensures Value() == Result(links, [], [])
    {
      interfaces, ips, routes := links, [], [];
    }

    function Value(): Result
      reads this
    {
      Result(interfaces, ips, routes)
    }

    /** Appends the allocated addresses, pointing at one interface, and replaces
        the routes when there are any. */
    method AppendIpConfigs(res: Option<IpamResult>, iface: nat, v4Bits: nat)
      modifies this`ips, this`routes
      ensures ips == old(ips) + if res.Some? then IpConfigs(res.value, v4Bits, Some(iface)) else []
      ensures routes == if res.Some? && res.value.routes != [] then res.value.routes else old(routes)
    {
      if res.None? {
        return;
      }
      var r := res.value;
      if r.ipv6Subnet.Some? {
        ips := ips + [IpConfig(r.ipv6Subnet.value, r.ipv6Gateway, Some(iface))];
      }
      if r.ipv4Address.Some? {
        ips := ips + [IpConfig(Net(r.ipv4Address.value, v4Bits), r.ipv4Gateway, Some(iface))];
      }
      if r.routes != [] {
        routes := [];
        for i := 0 to |r.routes|
          invariant routes == r.routes[..i]
          invariant ips == old(ips) + IpConfigs(r, v4Bits, Some(iface))
        {
          assert r.routes[..i + 1] == r.routes[..i] + [r.routes[i]];
          routes := routes + [r.routes[i]];
        }
        assert r.routes[..|r.routes|] == r.routes;
      }
    }
  }

  /** A master plugin's result: a veth's guest end is in the container's namespace,
      a tap stays on the host and reports the mask its host side carries. */
  function Master(at: Attachment, res: Option<IpamResult>): Result {
    if at.kind.Veth? then
      Result([Interface(at.host, ""), Interface(at.guest, at.netns)],
             if res.Some? then IpConfigs(res.value, 32, Some(1)) else [],
             if res.Some? then res.value.routes else [])
    else
      Result([Interface(at.host, "")],
             if res.Some? then IpConfigs(res.value, 25, Some(0)) else [],
             if res.Some? then res.value.routes else [])
  }

  method BuildResult(at: Attachment, res: Option<IpamResult>) returns (r: Result)
    ensures r == Master(at, res)
  {
    var result;
    if at.kind.Veth? {
      result := new CniResult([Interface(at.host, ""), Interface(at.guest, at.netns)]);
      result.AppendIpConfigs(res, 1, 32);
    } else {
      result := new CniResult([Interface(at.host, "")]);
      result.AppendIpConfigs(res, 0, 25);
    }
    r := result.Value();
  }

  // ---- What galactic-bgp reads back

  function Sandboxed(interfaces: seq<Interface>): nat {
    if interfaces == [] then 0
    else Sandboxed(interfaces[..|interfaces| - 1]) + if interfaces[|interfaces| - 1].sandbox != "" then 1 else 0
  }

  datatype Inferred = Refused | Inferred(kind: Kind, res: Option<IpamResult>)

  function Infer(result: Result): Inferred {
    if result.interfaces == [] || Sandboxed(result.interfaces) > 1 then Refused
    else
      var r := ToIpamResult(result);
      Inferred(if Sandboxed(result.interfaces) == 1 then Veth else Tap, if HasAddress(r) then Some(r) else None)
  }

  method InferFromPrevResult(result: Result) returns (r: Inferred)
    ensures r == Infer(result)
  {
    if result.interfaces == [] {
      return Refused;
    }
    var sandboxed := 0;
    for i := 0 to |result.interfaces|
      invariant sandboxed == Sandboxed(result.interfaces[..i])
    {
      assert result.interfaces[..i + 1][..i] == result.interfaces[..i];
      if result.interfaces[i].sandbox != "" {
        sandboxed := sandboxed + 1;
      }
    }
    assert result.interfaces[..|result.interfaces|] == result.interfaces;
    if sandboxed > 1 {
      return Refused;
    }
    var res := ResultToIpamResult(result);
    return Inferred(if sandboxed == 1 then Veth else Tap, if HasAddress(res) then Some(res) else None);
  }

  lemma {:induction false} HostSideNotCounted(interfaces: seq<Interface>, extra: seq<Interface>)
    requires forall i | i in extra :: i.sandbox == ""
    ensures Sandboxed(interfaces + extra) == Sandboxed(interfaces)
  {
    if extra == [] {
      assert interfaces + extra == interfaces;
    } else {
      var init := extra[..|extra| - 1];
      HostSideNotCounted(interfaces, init);
      assert (interfaces + extra)[..|interfaces + extra| - 1] == interfaces + init;
    }
  }

  function Delegate(r: IpamResult): Result {
    Result([], IpConfigs(r, 32, None), r.routes)
  }

  lemma DelegateRoundTrip(r: IpamResult)
    requires WellFormed(r)
    ensures ToIpamResult(Delegate(r)) == r
  {
    AbsorbsConfigs(r, 32, None);
  }

  lemma MasterRoundTrip(at: Attachment, r: IpamResult)
    requires WellFormed(r)
    ensures ToIpamResult(Master(at, Some(r))) == r
  {
    if at.kind.Veth? {
      AbsorbsConfigs(r, 32, Some(1));
    } else {
      AbsorbsConfigs(r, 25, Some(0));
    }
  }

  lemma MasterSandboxed(at: Attachment, res: Option<IpamResult>)
    ensures Sandboxed(Master(at, res).interfaces) == if at.kind.Veth? && at.netns != "" then 1 else 0
  {
    var one := [Interface(at.host, "")];
    assert one[..0] == [] && Sandboxed(one) == 0;
    if at.kind.Veth? {
      assert [Interface(at.host, ""), Interface(at.guest, at.netns)][..1] == one;
    }
  }

  lemma InferWithHostSide(m: Result, extra: seq<Interface>)
    requires m.interfaces != [] && forall i | i in extra :: i.sandbox == ""
    ensures Infer(m.(interfaces := m.interfaces + extra)) == Infer(m)
  {
    HostSideNotCounted(m.interfaces, extra);
  }

  /** What a chain delivers: the delegate's result read back by the master, the
      master's result with host-side interfaces appended, read by galactic-bgp. */
  function Chain(at: Attachment, delegate: Result, extra: seq<Interface>): Inferred {
    var r := Master(at, Some(ToIpamResult(delegate)));
    Infer(r.(interfaces := r.interfaces + extra))
  }

  /** End to end: whatever host-side interfaces other plugins append, galactic-bgp
      infers the interface's kind exactly when a veth's namespace is not empty, and
      the same addresses, gateways and routes; routes without any address are
      dropped. */
  lemma EndToEnd(at: Attachment, r: IpamResult, extra: seq<Interface>)
    requires WellFormed(r) && forall i | i in extra :: i.sandbox == ""
    ensures var got := Chain(at, Delegate(r), extra);
            && got.Inferred?
            && (got.kind == at.kind <==> at.kind.Tap? || at.netns != "")
            && got.res == (if HasAddress(r) then Some(r) else None)
  {
    DelegateRoundTrip(r);
    MasterRoundTrip(at, r);
    MasterSandboxed(at, Some(r));
    InferWithHostSide(Master(at, Some(r)), extra);
  }

  // ---- What is advertised

  /** A prefix of one of the families allocated: the IPv6 subnet, or the IPv4
      address as a host route. */
  predicate IsAllocated(res: Option<IpamResult>, p: Net) {
    res.Some? && (res.value.ipv6Subnet == Some(p) || (p.bits == 32 && res.value.ipv4Address == Some(p.ip)))
  }

  /** One prefix for each family allocated, IPv6 first, and no other. */
  ghost predicate Advertises(res: Option<IpamResult>, prefixes: seq<Net>) {
    && (forall p :: p in prefixes <==> IsAllocated(res, p))
    && |prefixes| <= 2
    && (forall i, j | 0 <= i < j < |prefixes| :: prefixes[i].ip.V6? && prefixes[j].ip.V4?)
  }

  method AdvertisementPrefixes(res: Option<IpamResult>) returns (prefixes: seq<Net>)
    requires res.Some? ==> WellFormed(res.value)
    ensures Advertises(res, prefixes)
  {
    prefixes := [];
    if res.None? {
      return;
    }
    if res.value.ipv6Subnet.Some? {
      prefixes := prefixes + [res.value.ipv6Subnet.value];
    }
    if res.value.ipv4Address.Some? {
      prefixes := prefixes + [Net(res.value.ipv4Address.value, 32)];
    }
  }

  lemma NothingAdvertised(res: Option<IpamResult>, prefixes: seq<Net>)
    requires res.Some? ==> !HasAddress(res.value)
    ensures Advertises(res, prefixes) <==> prefixes == []
  {
    assert prefixes != [] ==> prefixes[0] in prefixes;
  }

  /** A result determines its advertisement. */
  lemma AdvertisedOnce(res: Option<IpamResult>, a: seq<Net>, b: seq<Net>)
    requires Advertises(res, a) && Advertises(res, b)
    ensures a == b
  {
    assert |a| > 0 ==> a[0] in a;
    assert |a| > 1 ==> a[1] in a;
    assert |b| > 0 ==> b[0] in b;
    assert |b| > 1 ==> b[1] in b;
  }

  /** What is advertised is what galactic-ipam's own result allocates, through
      either master plugin. */
  lemma SamePrefixesAdvertised(at: Attachment, r: IpamResult, extra: seq<Interface>)
    requires WellFormed(r) && forall i | i in extra :: i.sandbox == ""
    ensures var got := Chain(at, Delegate(r), extra);
            got.Inferred? && forall prefixes :: Advertises(got.res, prefixes) <==> Advertises(Some(r), prefixes)
  {
    EndToEnd(at, r, extra);
    if !HasAddress(r) {
      forall prefixes
        ensures Advertises(None, prefixes) <==> Advertises(Some(r), prefixes)
      {
        NothingAdvertised(None, prefixes);
        NothingAdvertised(Some(r), prefixes);
      }
    }
  }
}
