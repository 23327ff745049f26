/** What a policy's prefixes, port ranges and rules mean, in numbers: the addresses
    of a block and the ports of a range (internal/trafficpolicy/evaluate.go). */
module PolicyMeaning {
  import opened Common
  import opened TrafficPolicy

  function Pow2(n: nat): (p: nat)
    ensures p > 0
  {
    if n == 0 then 1 else 2 * Pow2(n - 1)
  }

  lemma Twice(p: nat, q: nat)
    ensures (2 * p) * q == 2 * (p * q)
  {
  }

  lemma {:induction false} ShiftBounds(v: nat, n: nat)
    ensures Pow2(n) * ShiftRight(v, n) <= v < Pow2(n) * (ShiftRight(v, n) + 1)
  {
    if n > 0 {
      var q, p := ShiftRight(v / 2, n - 1), Pow2(n - 1);
      ShiftBounds(v / 2, n - 1);
      Twice(p, q);
      Twice(p, q + 1);
    }
  }

  lemma Grows(p: nat, a: nat, b: nat)
    ensures a <= b ==> p * a <= p * b
  {
    if a <= b {
      assert p * b == p * a + p * (b - a);
    }
  }

  lemma BlockUnique(p: nat, q: nat, r: nat, v: nat)
    requires p > 0 && p * q <= v < p * (q + 1) && p * r <= v < p * (r + 1)
    ensures q == r
  {
    Grows(p, q + 1, r);
    Grows(p, r + 1, q);
  }

  /** The value is in the q-th block of size values, counted from zero. */
  predicate InAligned(size: nat, q: nat, v: nat) {
    size * q <= v < size * q + size
  }

  lemma NextBlock(p: nat, q: nat)
    ensures p * (q + 1) == p * q + p
  {
  }

  /** Shifting tells which block of 2^n values a value is in. */
  lemma ShiftIs(v: nat, n: nat, q: nat)
    ensures ShiftRight(v, n) == q <==> InAligned(Pow2(n), q, v)
  {
    ShiftBounds(v, n);
    NextBlock(Pow2(n), q);
    NextBlock(Pow2(n), ShiftRight(v, n));
    if InAligned(Pow2(n), q, v) {
      BlockUnique(Pow2(n), q, ShiftRight(v, n), v);
    }
  }

  /** How many addresses a prefix holds. */
  function Size(p: Prefix): nat
    requires p.length <= Bits(p.addr.family)
  {
    Pow2(Bits(p.addr.family) - p.length)
  }

  /** The address is of the prefix's family, and in the same aligned block of its
      size as its own. */
  ghost predicate InBlock(p: Prefix, a: Addr) {
    && a.family == p.addr.family && p.length <= Bits(p.addr.family)
    && exists q: nat :: InAligned(Size(p), q, p.addr.value) && InAligned(Size(p), q, a.value)
  }

  /** A prefix holds, from lo, the first of its block, on, as many addresses as its
      size, and no others. */
  lemma ContainsFrom(p: Prefix, a: Addr, lo: nat, q: nat)
    requires p.length <= Bits(p.addr.family) && lo == Size(p) * q && lo <= p.addr.value < lo + Size(p)
    ensures p.Contains(a) <==> a.family == p.addr.family && lo <= a.value < lo + Size(p)
  {
    var n := Bits(p.addr.family) - p.length;
    ShiftIs(p.addr.value, n, q);
    ShiftIs(a.value, n, q);
  }

  /** A prefix holds exactly the addresses of its block. */
  lemma ContainsExactly(p: Prefix, a: Addr)
    ensures p.Contains(a) <==> InBlock(p, a)
  {
    if p.Contains(a) {
      var n := Bits(p.addr.family) - p.length;
      ShiftIs(p.addr.value, n, ShiftRight(p.addr.value, n));
      ShiftIs(a.value, n, ShiftRight(p.addr.value, n));
      assert InAligned(Size(p), ShiftRight(p.addr.value, n), a.value);
    }
    if InBlock(p, a) {
      var q: nat :| InAligned(Size(p), q, p.addr.value) && InAligned(Size(p), q, a.value);
      ContainsFrom(p, a, Size(p) * q, q);
    }
  }

  /** A prefix of length zero holds its whole family. */
  lemma HoldsFamily(p: Prefix, a: Addr)
    requires p.length == 0 && a.family == p.addr.family
    requires a.value < Pow2(Bits(a.family)) && p.addr.value < Pow2(Bits(a.family))
    ensures p.Contains(a)
  {
    ContainsFrom(p, a, 0, 0);
  }

  /** One of full length, 32 bits or 128, holds its address alone. */
  lemma HoldsOne(p: Prefix, a: Addr)
    requires p.length == (if p.addr.family.IPv4? then 32 else 128)
    ensures p.Contains(a) <==> a == p.addr
  {
    assert Size(p) == 1;
    ContainsFrom(p, a, p.addr.value, p.addr.value);
  }

  /** How many ports a range holds. */
  function Ports(r: PortRange): nat {
    if r.start <= r.end then r.end - r.start + 1 else 0
  }

  /** They are that many, from the first on. */
  lemma PortsExactly(r: PortRange, port: nat)
    ensures r.Contains(port) <==> r.start <= port < r.start + Ports(r)
  {
  }

  // ---- Rules

  ghost predicate InSome(ps: seq<Prefix>, a: Addr) {
    ps == [] || exists i :: 0 <= i < |ps| && InBlock(ps[i], a)
  }

  ghost predicate OfSome(rs: seq<PortRange>, port: nat) {
    rs == [] || exists i :: 0 <= i < |rs| && rs[i].start <= port < rs[i].start + Ports(rs[i])
  }

  /** A packet meets a rule's fields, its path apart: each one given agrees, and the
      two ICMP protocols are their own family's. */
  ghost predicate Meets(m: Match, pkt: Packet) {
    && m.family in {None, Some(pkt.src.family)} && m.proto in {None, Some(pkt.proto)}
    && (m.proto == Some(1) ==> pkt.src.family == IPv4) && (m.proto == Some(58) ==> pkt.src.family == IPv6)
    && InSome(m.source, pkt.src) && InSome(m.destination, pkt.dst)
    && OfSome(m.sourcePorts, pkt.srcPort) && OfSome(m.destPorts, pkt.dstPort)
    && (m.icmp.Some? ==> m.icmp.value.kind == pkt.icmpType)
    && (m.icmp.Some? && m.icmp.value.hasCode ==> m.icmp.value.code == pkt.icmpCode)
  }

  lemma AnyPrefix(ps: seq<Prefix>, a: Addr)
    ensures (ps != [] ==> exists p | p in ps :: p.Contains(a)) <==> InSome(ps, a)
  {
    forall p: Prefix
      ensures p.Contains(a) <==> InBlock(p, a)
    {
      ContainsExactly(p, a);
    }
    if p: Prefix :| p in ps && p.Contains(a) {
      var i :| 0 <= i < |ps| && ps[i] == p;
      assert InBlock(ps[i], a);
    }
  }

  lemma AnyPort(rs: seq<PortRange>, port: nat)
    ensures (rs != [] ==> exists r | r in rs :: r.Contains(port)) <==> OfSome(rs, port)
  {
    if r: PortRange :| r in rs && r.Contains(port) {
      var i :| 0 <= i < |rs| && rs[i] == r;
      assert rs[i].start <= port < rs[i].start + Ports(rs[i]);
    }
    if i :| 0 <= i < |rs| && rs[i].start <= port < rs[i].start + Ports(rs[i]) {
      assert rs[i] in rs && rs[i].Contains(port);
    }
  }

  lemma MatchesExactly(m: Match, pkt: Packet)
    ensures MatchesExceptPath(m, pkt) <==> Meets(m, pkt)
  {
    AnyPrefix(m.source, pkt.src);
    AnyPrefix(m.destination, pkt.dst);
    AnyPort(m.sourcePorts, pkt.srcPort);
    AnyPort(m.destPorts, pkt.dstPort);
  }

  /** The whole decision: the rule that decides is the first whose fields the packet
      meets and whose path, if it has one, is the packet's; a rule with a path met
      before that by a packet of unknown path denies; and with neither it is denied. */
  ghost predicate Decides(rules: seq<Rule>, pkt: Packet, v: Verdict) {
    match v.reason
    case ByRule =>
      && 0 <= v.rule < |rules| && v.allow == rules[v.rule].allow && Meets(rules[v.rule].match_, pkt)
      && rules[v.rule].match_.path in {None, Some(pkt.path)}
      && (pkt.path == PathUnknown ==> rules[v.rule].match_.path.None?)
      && forall i | 0 <= i < v.rule :: Skips(rules[i].match_, pkt)
    case ClassificationError =>
      && !v.allow && v.rule == -1
      && exists i :: 0 <= i < |rules| && Blocks(rules, i, pkt)
    case NoMatch => !v.allow && v.rule == -1 && forall i | 0 <= i < |rules| :: Skips(rules[i].match_, pkt)
  }

  ghost predicate Skips(m: Match, pkt: Packet) {
    !Meets(m, pkt) || (m.path.Some? && pkt.path != PathUnknown && m.path.value != pkt.path)
  }

  ghost predicate Blocks(rules: seq<Rule>, i: nat, pkt: Packet)
    requires i < |rules|
  {
    && Meets(rules[i].match_, pkt) && rules[i].match_.path.Some? && pkt.path == PathUnknown
    && forall j | 0 <= j < i :: Skips(rules[j].match_, pkt)
  }

  lemma {:induction false} DecidesFrom(rules: seq<Rule>, from: nat, pkt: Packet)
    requires from <= |rules| && forall j | 0 <= j < from :: Skips(rules[j].match_, pkt)
    ensures Decides(rules, pkt, EvaluateFrom(rules, from, pkt))
    decreases |rules| - from
  {
    if from < |rules| {
      MatchesExactly(rules[from].match_, pkt);
      if Skips(rules[from].match_, pkt) {
        DecidesFrom(rules, from + 1, pkt);
      } else if rules[from].match_.path.Some? && pkt.path == PathUnknown {
        assert Blocks(rules, from, pkt);
      }
    }
  }

  /** Every policy decides every packet so. */
  lemma PolicyDecides(rules: seq<Rule>, pkt: Packet)
    ensures Decides(rules, pkt, EvaluateFrom(rules, 0, pkt))
  {
    DecidesFrom(rules, 0, pkt);
  }

  /** And in one way only. */
  lemma DecidesOnce(rules: seq<Rule>, pkt: Packet, v: Verdict, u: Verdict)
    requires Decides(rules, pkt, v) && Decides(rules, pkt, u)
    ensures v == u
  {
    assert v.reason.ByRule? && u.reason.ByRule? ==> !(v.rule < u.rule) && !(u.rule < v.rule);
    if i: nat :| i < |rules| && Blocks(rules, i, pkt) {
      assert v.reason.ByRule? ==> !(v.rule < i) && !(i < v.rule);
      assert u.reason.ByRule? ==> !(u.rule < i) && !(i < u.rule);
    }
  }

  /** A policy of one rule that allows a block of sources allows exactly the packets
      from it. */
  lemma OneBlockAllowed(p: Prefix, pkt: Packet)
    ensures var m := Match(None, None, None, [p], [], [], [], None);
            EvaluateFrom([Rule(true, m)], 0, pkt)
            == if InBlock(p, pkt.src) then Verdict(true, 0, ByRule) else Verdict(false, -1, NoMatch)
  {
    var m := Match(None, None, None, [p], [], [], [], None);
    MatchesExactly(m, pkt);
    assert m.source[0] == p;
    assert EvaluateFrom([Rule(true, m)], 1, pkt) == Verdict(false, -1, NoMatch);
  }

  /** And one that allows a range of destination ports exactly those to it. */
  lemma OneRangeAllowed(r: PortRange, pkt: Packet)
    ensures var m := Match(None, None, None, [], [], [], [r], None);
            EvaluateFrom([Rule(true, m)], 0, pkt)
            == if r.start <= pkt.dstPort < r.start + Ports(r) then Verdict(true, 0, ByRule)
               else Verdict(false, -1, NoMatch)
  {
    var m := Match(None, None, None, [], [], [], [r], None);
    MatchesExactly(m, pkt);
    assert m.destPorts[0] == r;
    assert EvaluateFrom([Rule(true, m)], 1, pkt) == Verdict(false, -1, NoMatch);
  }
}
