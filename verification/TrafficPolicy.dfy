/** The traffic policy evaluator and the compiler that lowers a policy to the
    single-valued entries the datapath walks (internal/trafficpolicy). */
module TrafficPolicy {
  import opened Common

  datatype Family = IPv4 | IPv6

  function Bits(f: Family): nat { if f.IPv4? then 32 else 128 }

  /** value without its low bits. */
  function ShiftRight(value: nat, bits: nat): nat {
    if bits == 0 then value else ShiftRight(value / 2, bits - 1)
  }

  datatype Addr = Addr(family: Family, value: nat)

  datatype Prefix = Prefix(addr: Addr, length: nat)
  {
    /** A prefix never contains an address of the other family. */
    predicate Contains(a: Addr) {
      && a.family == addr.family && length <= Bits(addr.family)
      && var host := Bits(addr.family) - length;
         ShiftRight(a.value, host) == ShiftRight(addr.value, host)
    }
  }

  datatype PortRange = PortRange(start: nat, end: nat)
  {
    predicate Contains(port: nat) { start <= port <= end }
  }

  datatype Path = PathUnknown | PathPrivate | PathPublicNAT | PathPublicService

  const PROTO_ICMP := 1
  const PROTO_ICMPV6 := 58
  const MAX_RULES := 64
  const MAX_COMPILED_ENTRIES := 256

  datatype Icmp = Icmp(kind: nat, code: nat, hasCode: bool)

  /** None and an empty list mean the field was omitted and matches anything. */
  datatype Match = Match(path: Option<Path>, family: Option<Family>, proto: Option<nat>,
                         source: seq<Prefix>, destination: seq<Prefix>,
                         sourcePorts: seq<PortRange>, destPorts: seq<PortRange>, icmp: Option<Icmp>)

  datatype Rule = Rule(allow: bool, match_: Match)

  datatype Packet = Packet(path: Path, src: Addr, dst: Addr, proto: nat, srcPort: nat, dstPort: nat,
                           icmpType: nat, icmpCode: nat)

  /** As on the wire. */
  predicate OneFamily(pkt: Packet) { pkt.src.family == pkt.dst.family }

  datatype Reason = ByRule | NoMatch | ClassificationError

  datatype Verdict = Verdict(allow: bool, rule: int, reason: Reason)

  // ---- The evaluator

  predicate FamilyMatches(m: Match, fam: Family) {
    && (m.family.Some? ==> m.family.value == fam)
    && !(m.proto == Some(PROTO_ICMP) && fam != IPv4)
    && !(m.proto == Some(PROTO_ICMPV6) && fam != IPv6)
  }

  predicate TransportMatches(m: Match, pkt: Packet) {
    && (m.proto.Some? ==> m.proto.value == pkt.proto)
    && (m.icmp.Some? ==>
          && m.icmp.value.kind == pkt.icmpType
          && (m.icmp.value.hasCode ==> m.icmp.value.code == pkt.icmpCode))
  }

  predicate MatchesExceptPath(m: Match, pkt: Packet) {
    && FamilyMatches(m, pkt.src.family)
    && TransportMatches(m, pkt)
    && (m.source != [] ==> exists p | p in m.source :: p.Contains(pkt.src))
    && (m.destination != [] ==> exists p | p in m.destination :: p.Contains(pkt.dst))
    && (m.sourcePorts != [] ==> exists r | r in m.sourcePorts :: r.Contains(pkt.srcPort))
    && (m.destPorts != [] ==> exists r | r in m.destPorts :: r.Contains(pkt.dstPort))
  }

  /** The decision of the rules from index i on. */
  function EvaluateFrom(rules: seq<Rule>, i: nat, pkt: Packet): (v: Verdict)
    requires i <= |rules|
    decreases |rules| - i
  {
    if i == |rules| then Verdict(false, -1, NoMatch)
    else
      var m := rules[i].match_;
      if !MatchesExceptPath(m, pkt) then EvaluateFrom(rules, i + 1, pkt)
      else if m.path.Some? && pkt.path == PathUnknown then Verdict(false, -1, ClassificationError)
      else if m.path.Some? && m.path.value != pkt.path then EvaluateFrom(rules, i + 1, pkt)
      else Verdict(rules[i].allow, i, ByRule)
  }

  method Evaluate(rules: seq<Rule>, pkt: Packet) returns (v: Verdict)
    ensures v == EvaluateFrom(rules, 0, pkt)
  {
    for i := 0 to |rules|
      invariant EvaluateFrom(rules, 0, pkt) == EvaluateFrom(rules, i, pkt)
    {
      var m := rules[i].match_;
      if !MatchesExceptPath(m, pkt) {
        continue;
      }
      if m.path.Some? {
        if pkt.path == PathUnknown {
          return Verdict(false, -1, ClassificationError);
        }
        if m.path.value != pkt.path {
          continue;
        }
      }
      return Verdict(rules[i].allow, i, ByRule);
    }
    return Verdict(false, -1, NoMatch);
  }

  // ---- Compiled entries

  /** The flag bits: which fields of an entry take part in matching. */
  datatype Flags = Flags(allow: bool, path: bool, family: bool, proto: bool, source: bool, destination: bool,
                         sourcePorts: bool, destPorts: bool, icmpType: bool, icmpCode: bool)

  datatype Entry = Entry(flags: Flags, rule: nat, path: Path, family: Family, proto: nat,
                         icmpType: nat, icmpCode: nat, source: Prefix, destination: Prefix,
                         sourcePorts: PortRange, destPorts: PortRange)

  const NO_PREFIX := Prefix(Addr(IPv4, 0), 0)
  const NO_PORTS := PortRange(0, 0)

  /** Maps f over xs and concatenates: a nested append loop. */
  function FlatMap<A, B>(f: A -> seq<B>, xs: seq<A>): (ys: seq<B>) {
    if xs == [] then [] else FlatMap(f, xs[..|xs| - 1]) + f(xs[|xs| - 1])
  }

  function ProtoFamily(proto: Option<nat>): Option<Family> {
    if proto == Some(PROTO_ICMP) then Some(IPv4)
    else if proto == Some(PROTO_ICMPV6) then Some(IPv6)
    else None
  }

  /** ipFamily and the protocol fix different families. */
  predicate Contradictory(m: Match) {
    m.family.Some? && ProtoFamily(m.proto).Some? && m.family != ProtoFamily(m.proto)
  }

  /** The family ipFamily or the protocol fixes, if either does. */
  function RuleFamily(m: Match): Option<Family> {
    if m.family.Some? then m.family else ProtoFamily(m.proto)
  }

  function BaseEntry(index: nat, r: Rule): Entry {
    var m := r.match_;
    var fam := if ProtoFamily(m.proto).Some? then ProtoFamily(m.proto) else m.family;
    Entry(Flags(r.allow, m.path.Some?, fam.Some?, m.proto.Some?, false, false, false, false,
                m.icmp.Some?, m.icmp.Some? && m.icmp.value.hasCode),
          index % 0x1_0000,
          if m.path.Some? then m.path.value else PathUnknown,
          if fam.Some? then fam.value else IPv4,
          if m.proto.Some? then m.proto.value else 0,
          if m.icmp.Some? then m.icmp.value.kind else 0,
          if m.icmp.Some? && m.icmp.value.hasCode then m.icmp.value.code else 0,
          NO_PREFIX, NO_PREFIX, NO_PORTS, NO_PORTS)
  }

  /** One source and destination combination; None is an unconstrained side. */
  datatype AddressPair = AddressPair(src: Option<Prefix>, dst: Option<Prefix>)

  function Sides(ps: seq<Prefix>): seq<Option<Prefix>> {
    if ps == [] then [None] else seq(|ps|, i requires 0 <= i < |ps| => Some(ps[i]))
  }

  function PairsWith(s: Option<Prefix>, d: Option<Prefix>): seq<AddressPair> {
    if s.Some? && d.Some? && s.value.addr.family != d.value.addr.family then [] else [AddressPair(s, d)]
  }

  function PairFn(s: Option<Prefix>): Option<Prefix> -> seq<AddressPair> {
    (d: Option<Prefix>) => PairsWith(s, d)
  }

  function SideFn(dsts: seq<Option<Prefix>>): Option<Prefix> -> seq<AddressPair> {
    (s: Option<Prefix>) => FlatMap(PairFn(s), dsts)
  }

  function AddressPairs(m: Match): seq<AddressPair> {
    FlatMap(SideFn(Sides(m.destination)), Sides(m.source))
  }

  function PairFamily(ap: AddressPair): Option<Family> {
    if ap.src.Some? then Some(ap.src.value.addr.family)
    else if ap.dst.Some? then Some(ap.dst.value.addr.family)
    else None
  }

  /** The entry of one address pair, or none when its family contradicts the rule's. */
  function WithAddresses(base: Entry, ap: AddressPair): seq<Entry> {
    var fam := PairFamily(ap);
    if fam.Some? && base.flags.family && base.family != fam.value then []
    else
      [base.(flags := base.flags.(source := ap.src.Some?, destination := ap.dst.Some?,
                                  family := base.flags.family || fam.Some?),
             source := if ap.src.Some? then ap.src.value else base.source,
             destination := if ap.dst.Some? then ap.dst.value else base.destination,
             family := if fam.Some? then fam.value else base.family)]
  }

  function Ranges(rs: seq<PortRange>): seq<Option<PortRange>> {
    if rs == [] then [None] else seq(|rs|, i requires 0 <= i < |rs| => Some(rs[i]))
  }

  function WithPorts(e: Entry, sp: Option<PortRange>, dp: Option<PortRange>): Entry {
    e.(flags := e.flags.(sourcePorts := sp.Some?, destPorts := dp.Some?),
       sourcePorts := if sp.Some? then sp.value else e.sourcePorts,
       destPorts := if dp.Some? then dp.value else e.destPorts)
  }

  function RangeFn(e: Entry, sp: Option<PortRange>): Option<PortRange> -> seq<Entry> {
    (dp: Option<PortRange>) => [WithPorts(e, sp, dp)]
  }

  function PortsFn(e: Entry, dps: seq<Option<PortRange>>): Option<PortRange> -> seq<Entry> {
    (sp: Option<PortRange>) => FlatMap(RangeFn(e, sp), dps)
  }

  function PortEntries(e: Entry, m: Match): seq<Entry> {
    FlatMap(PortsFn(e, Ranges(m.destPorts)), Ranges(m.sourcePorts))
  }

  function EntryFn(m: Match): Entry -> seq<Entry> {
    (e: Entry) => PortEntries(e, m)
  }

  function ExpandFn(base: Entry, m: Match): AddressPair -> seq<Entry> {
    (ap: AddressPair) => FlatMap(EntryFn(m), WithAddresses(base, ap))
  }

  /** expandRule: one entry per combination of the rule's alternatives. */
  function ExpandRule(index: nat, r: Rule): seq<Entry> {
    if Contradictory(r.match_) then []
    else FlatMap(ExpandFn(BaseEntry(index, r), r.match_), AddressPairs(r.match_))
  }

  function Flatten<T>(xss: seq<seq<T>>): seq<T> {
    if xss == [] then [] else Flatten(xss[..|xss| - 1]) + xss[|xss| - 1]
  }

  function Blocks(rules: seq<Rule>): (bs: seq<seq<Entry>>)
    ensures |bs| == |rules|
  {
    seq(|rules|, i requires 0 <= i < |rules| => ExpandRule(i, rules[i]))
  }

  /** The entries of every rule, in rule order. */
  function Compiled(rules: seq<Rule>): seq<Entry> {
    Flatten(Blocks(rules))
  }

  predicate EntryMatchesExceptPath(e: Entry, pkt: Packet) {
    && (e.flags.family ==> e.family == pkt.src.family)
    && (e.flags.proto ==> e.proto == pkt.proto)
    && (e.flags.source ==> e.source.Contains(pkt.src))
    && (e.flags.destination ==> e.destination.Contains(pkt.dst))
    && (e.flags.sourcePorts ==> e.sourcePorts.Contains(pkt.srcPort))
    && (e.flags.destPorts ==> e.destPorts.Contains(pkt.dstPort))
    && (e.flags.icmpType ==> e.icmpType == pkt.icmpType)
    && (e.flags.icmpCode ==> e.icmpCode == pkt.icmpCode)
  }

  /** The datapath's linear first-match walk from entry i on. */
  function WalkFrom(entries: seq<Entry>, i: nat, pkt: Packet): (v: Verdict)
    requires i <= |entries|
    decreases |entries| - i
  {
    if i == |entries| then Verdict(false, -1, NoMatch)
    else
      var e := entries[i];
      if !EntryMatchesExceptPath(e, pkt) then WalkFrom(entries, i + 1, pkt)
      else if e.flags.path && pkt.path == PathUnknown then Verdict(false, -1, ClassificationError)
      else if e.flags.path && e.path != pkt.path then WalkFrom(entries, i + 1, pkt)
      else Verdict(e.flags.allow, e.rule, ByRule)
  }

  // ---- Membership of expansions

  lemma {:induction false} InFlatMap<A, B>(f: A -> seq<B>, xs: seq<A>, y: B)
    ensures y in FlatMap(f, xs) <==> exists x | x in xs :: y in f(x)
  {
    if xs != [] {
      var init, last := xs[..|xs| - 1], xs[|xs| - 1];
      InFlatMap(f, init, y);
      assert xs == init + [last];
    }
  }

  lemma InAddressPairs(m: Match, ap: AddressPair)
    ensures ap in AddressPairs(m) <==>
            ap.src in Sides(m.source) && ap.dst in Sides(m.destination) && ap in PairsWith(ap.src, ap.dst)
  {
    var ds := Sides(m.destination);
    InFlatMap(SideFn(ds), Sides(m.source), ap);
    forall s
      ensures ap in SideFn(ds)(s) <==> ap.src == s && ap.dst in ds && ap in PairsWith(ap.src, ap.dst)
    {
      InFlatMap(PairFn(s), ds, ap);
    }
  }

  lemma InPortEntries(e: Entry, m: Match, x: Entry)
    ensures x in PortEntries(e, m) <==>
            exists sp, dp | sp in Ranges(m.sourcePorts) && dp in Ranges(m.destPorts) :: x == WithPorts(e, sp, dp)
  {
    var dps := Ranges(m.destPorts);
    InFlatMap(PortsFn(e, dps), Ranges(m.sourcePorts), x);
    forall sp
      ensures x in PortsFn(e, dps)(sp) <==> exists dp | dp in dps :: x == WithPorts(e, sp, dp)
    {
      InFlatMap(RangeFn(e, sp), dps, x);
    }
  }

  /** x is the entry of this address pair and these port ranges. */
  ghost predicate Combines(
    x: Entry, base: Entry, m: Match, ap: AddressPair, sp: Option<PortRange>, dp: Option<PortRange>)
  {
    && sp in Ranges(m.sourcePorts) && dp in Ranges(m.destPorts)
    && WithAddresses(base, ap) != [] && x == WithPorts(WithAddresses(base, ap)[0], sp, dp)
  }

  lemma InExpandFn(base: Entry, m: Match, ap: AddressPair, x: Entry)
    ensures x in ExpandFn(base, m)(ap) <==> exists sp, dp :: Combines(x, base, m, ap, sp, dp)
  {
    InFlatMap(EntryFn(m), WithAddresses(base, ap), x);
    if WithAddresses(base, ap) != [] {
      var e := WithAddresses(base, ap)[0];
      InPortEntries(e, m, x);
      assert x in ExpandFn(base, m)(ap) <==> x in PortEntries(e, m);
      if x in PortEntries(e, m) {
        var sp, dp :| sp in Ranges(m.sourcePorts) && dp in Ranges(m.destPorts) && x == WithPorts(e, sp, dp);
        assert Combines(x, base, m, ap, sp, dp);
      }
    }
  }

  lemma InExpandRule(index: nat, r: Rule, x: Entry)
    requires !Contradictory(r.match_)
    ensures x in ExpandRule(index, r) <==>
            exists ap, sp, dp :: ap in AddressPairs(r.match_) && Combines(x, BaseEntry(index, r), r.match_, ap, sp, dp)
  {
    var base, m := BaseEntry(index, r), r.match_;
    InFlatMap(ExpandFn(base, m), AddressPairs(m), x);
    forall ap
      ensures x in ExpandFn(base, m)(ap) <==> exists sp, dp :: Combines(x, base, m, ap, sp, dp)
    {
      InExpandFn(base, m, ap, x);
    }
  }

  // ---- A rule and its entries decide alike

  /** Every entry of a rule carries its index, action and path. */
  ghost predicate EntryOf(x: Entry, index: nat, r: Rule) {
    && x.rule == index % 0x1_0000
    && (x.flags.allow <==> r.allow)
    && (x.flags.path <==> r.match_.path.Some?)
    && (r.match_.path.Some? ==> x.path == r.match_.path.value)
  }

  lemma EntriesOfRule(index: nat, r: Rule)
    ensures forall x | x in ExpandRule(index, r) :: EntryOf(x, index, r)
  {
    forall x | x in ExpandRule(index, r)
      ensures EntryOf(x, index, r)
    {
      InExpandRule(index, r, x);
    }
  }

  ghost predicate AlternativeMatches(ap: AddressPair, sp: Option<PortRange>, dp: Option<PortRange>, pkt: Packet) {
    && (ap.src.Some? ==> ap.src.value.Contains(pkt.src))
    && (ap.dst.Some? ==> ap.dst.value.Contains(pkt.dst))
    && (sp.Some? ==> sp.value.Contains(pkt.srcPort))
    && (dp.Some? ==> dp.value.Contains(pkt.dstPort))
  }

  /** One combination's entry matches what the combination says. */
  lemma CombinationMatches(
    index: nat, r: Rule, ap: AddressPair, sp: Option<PortRange>, dp: Option<PortRange>, pkt: Packet)
    requires !Contradictory(r.match_)
    ensures var m, made := r.match_, WithAddresses(BaseEntry(index, r), ap);
            && (made != [] && EntryMatchesExceptPath(WithPorts(made[0], sp, dp), pkt) ==>
                  FamilyMatches(m, pkt.src.family) && TransportMatches(m, pkt) && AlternativeMatches(ap, sp, dp, pkt))
            && (OneFamily(pkt) && FamilyMatches(m, pkt.src.family) && TransportMatches(m, pkt)
                && AlternativeMatches(ap, sp, dp, pkt) ==>
                  made != [] && EntryMatchesExceptPath(WithPorts(made[0], sp, dp), pkt))
  {
  }

  /** The alternatives of the omitted or matching fields. */
  lemma Alternatives(m: Match, pkt: Packet)
    returns (src: Option<Prefix>, dst: Option<Prefix>, sp: Option<PortRange>, dp: Option<PortRange>)
    requires MatchesExceptPath(m, pkt)
    ensures src in Sides(m.source) && (src.Some? ==> src.value.Contains(pkt.src))
    ensures dst in Sides(m.destination) && (dst.Some? ==> dst.value.Contains(pkt.dst))
    ensures sp in Ranges(m.sourcePorts) && (sp.Some? ==> sp.value.Contains(pkt.srcPort))
    ensures dp in Ranges(m.destPorts) && (dp.Some? ==> dp.value.Contains(pkt.dstPort))
  {
    src, dst, sp, dp := None, None, None, None;
    if m.source != [] {
      var p :| p in m.source && p.Contains(pkt.src);
      src := Some(p);
    }
    if m.destination != [] {
      var p :| p in m.destination && p.Contains(pkt.dst);
      dst := Some(p);
    }
    if m.sourcePorts != [] {
      var q :| q in m.sourcePorts && q.Contains(pkt.srcPort);
      sp := Some(q);
    }
    if m.destPorts != [] {
      var q :| q in m.destPorts && q.Contains(pkt.dstPort);
      dp := Some(q);
    }
    SomeIn(m.source, src);
    SomeIn(m.destination, dst);
    RangeIn(m.sourcePorts, sp);
    RangeIn(m.destPorts, dp);
  }

  /** No packet is missed by the expansion. */
  lemma MatchHasEntry(index: nat, r: Rule, pkt: Packet) returns (x: Entry)
    requires OneFamily(pkt) && MatchesExceptPath(r.match_, pkt)
    ensures x in ExpandRule(index, r) && EntryMatchesExceptPath(x, pkt)
  {
    var m, base := r.match_, BaseEntry(index, r);
    var src, dst, sp, dp := Alternatives(m, pkt);
    var ap := AddressPair(src, dst);
    assert ap in AddressPairs(m) by {
      InAddressPairs(m, ap);
    }
    CombinationMatches(index, r, ap, sp, dp, pkt);
    x := WithPorts(WithAddresses(base, ap)[0], sp, dp);
    assert Combines(x, base, m, ap, sp, dp);
    InExpandRule(index, r, x);
  }

  lemma SomeIn(ps: seq<Prefix>, s: Option<Prefix>)
    ensures s in Sides(ps) <==> (if s.None? then ps == [] else s.value in ps)
  {
    if s.Some? && s.value in ps {
      var i :| 0 <= i < |ps| && ps[i] == s.value;
      assert Sides(ps)[i] == s;
    }
  }

  lemma RangeIn(rs: seq<PortRange>, s: Option<PortRange>)
    ensures s in Ranges(rs) <==> (if s.None? then rs == [] else s.value in rs)
  {
    if s.Some? && s.value in rs {
      var i :| 0 <= i < |rs| && rs[i] == s.value;
      assert Ranges(rs)[i] == s;
    }
  }

  /** Every entry that matches belongs to a rule that matches. */
  lemma EntryHasMatch(index: nat, r: Rule, pkt: Packet, x: Entry)
    requires x in ExpandRule(index, r) && EntryMatchesExceptPath(x, pkt)
    ensures MatchesExceptPath(r.match_, pkt)
  {
    var m, base := r.match_, BaseEntry(index, r);
    InExpandRule(index, r, x);
    var ap, sp, dp :| ap in AddressPairs(m) && Combines(x, base, m, ap, sp, dp);
    CombinationMatches(index, r, ap, sp, dp, pkt);
    InAddressPairs(m, ap);
    SomeIn(m.source, ap.src);
    SomeIn(m.destination, ap.dst);
    RangeIn(m.sourcePorts, sp);
    RangeIn(m.destPorts, dp);
  }

  /** Walking the entries of one rule either passes over them all or decides as
      the rule does. */
  lemma {:induction false} WalkBlock(entries: seq<Entry>, i: nat, j: nat, index: nat, r: Rule, pkt: Packet)
    requires i <= j <= |entries|
    requires forall k | i <= k < j :: EntryOf(entries[k], index, r)
    ensures
      var m := r.match_;
      WalkFrom(entries, i, pkt) ==
      if forall k | i <= k < j :: !EntryMatchesExceptPath(entries[k], pkt) then WalkFrom(entries, j, pkt)
      else if m.path.Some? && pkt.path == PathUnknown then Verdict(false, -1, ClassificationError)
      else if m.path.Some? && m.path.value != pkt.path then WalkFrom(entries, j, pkt)
      else Verdict(r.allow, index % 0x1_0000, ByRule)
    decreases j - i
  {
    if i < j {
      WalkBlock(entries, i + 1, j, index, r, pkt);
      assert EntryOf(entries[i], index, r);
    }
  }

  lemma {:induction false} FlattenPrefix<T>(xss: seq<seq<T>>, i: nat, j: nat)
    requires i <= j <= |xss|
    ensures Flatten(xss[..i]) <= Flatten(xss[..j])
  {
    if i < j {
      FlattenPrefix(xss, i, j - 1);
      assert xss[..j][..j - 1] == xss[..j - 1];
    }
  }

  lemma FlattenOne<T>(xs: seq<T>)
    ensures Flatten([xs]) == xs
  {
    assert [xs][..0] == [];
  }

  /** block decides the packet as rule r does. */
  ghost predicate BlockOf(block: seq<Entry>, index: nat, r: Rule, pkt: Packet) {
    && (forall x | x in block :: EntryOf(x, index, r))
    && (MatchesExceptPath(r.match_, pkt) <==> exists x | x in block :: EntryMatchesExceptPath(x, pkt))
  }

  lemma ExpandRuleIsBlock(index: nat, r: Rule, pkt: Packet)
    requires OneFamily(pkt)
    ensures BlockOf(ExpandRule(index, r), index, r, pkt)
  {
    EntriesOfRule(index, r);
    if MatchesExceptPath(r.match_, pkt) {
      var x := MatchHasEntry(index, r, pkt);
    } else {
      forall x | x in ExpandRule(index, r)
        ensures !EntryMatchesExceptPath(x, pkt)
      {
        if EntryMatchesExceptPath(x, pkt) {
          EntryHasMatch(index, r, pkt, x);
        }
      }
    }
  }

  /** One rule's verdict, where after is what follows it. */
  function Decide(r: Rule, index: nat, pkt: Packet, after: Verdict): Verdict {
    var m := r.match_;
    if !MatchesExceptPath(m, pkt) then after
    else if m.path.Some? && pkt.path == PathUnknown then Verdict(false, -1, ClassificationError)
    else if m.path.Some? && m.path.value != pkt.path then after
    else Verdict(r.allow, index, ByRule)
  }

  lemma EvaluateDecides(rules: seq<Rule>, i: nat, pkt: Packet)
    requires i < |rules|
    ensures EvaluateFrom(rules, i, pkt) == Decide(rules[i], i, pkt, EvaluateFrom(rules, i + 1, pkt))
  {
  }

  /** Walking one rule's block of a longer list. */
  lemma WalkRule(entries: seq<Entry>, lo: nat, block: seq<Entry>, index: nat, r: Rule, pkt: Packet)
    requires lo + |block| <= |entries| && entries[lo..lo + |block|] == block
    requires BlockOf(block, index, r, pkt)
    ensures WalkFrom(entries, lo, pkt) == Decide(r, index % 0x1_0000, pkt, WalkFrom(entries, lo + |block|, pkt))
  {
    assert forall k | lo <= k < lo + |block| :: entries[k] == block[k - lo];
    if x :| x in block && EntryMatchesExceptPath(x, pkt) {
      var k :| 0 <= k < |block| && block[k] == x;
      assert entries[lo + k] == x;
    }
    WalkBlock(entries, lo, lo + |block|, index, r, pkt);
  }

  /** Where block i stands in the flat list. */
  lemma BlockWithin<T>(blocks: seq<seq<T>>, i: nat)
    requires i < |blocks|
    ensures var lo, hi := |Flatten(blocks[..i])|, |Flatten(blocks[..i + 1])|;
            hi == lo + |blocks[i]| && hi <= |Flatten(blocks)| && Flatten(blocks)[lo..hi] == blocks[i]
  {
    FlattenPrefix(blocks, i + 1, |blocks|);
    assert blocks[..|blocks|] == blocks;
    assert blocks[..i + 1][..i] == blocks[..i];
    assert Flatten(blocks[..i + 1]) == Flatten(blocks[..i]) + blocks[i];
  }

  /** The verdict of walking from block i on. */
  ghost function WalkBlocks(blocks: seq<seq<Entry>>, i: nat, pkt: Packet): Verdict
    requires i <= |blocks|
  {
    FlattenPrefix(blocks, i, |blocks|);
    assert blocks[..|blocks|] == blocks;
    WalkFrom(Flatten(blocks), |Flatten(blocks[..i])|, pkt)
  }

  lemma WalkBlocksDecides(blocks: seq<seq<Entry>>, i: nat, r: Rule, pkt: Packet)
    requires i < |blocks| && i < 0x1_0000 && BlockOf(blocks[i], i, r, pkt)
    ensures WalkBlocks(blocks, i, pkt) == Decide(r, i, pkt, WalkBlocks(blocks, i + 1, pkt))
  {
    BlockWithin(blocks, i);
    WalkRule(Flatten(blocks), |Flatten(blocks[..i])|, blocks[i], i, r, pkt);
  }

  ghost predicate DecidesLike(blocks: seq<seq<Entry>>, i: nat, r: Rule, pkt: Packet)
    requires i < |blocks|
  {
    WalkBlocks(blocks, i, pkt) == Decide(r, i, pkt, WalkBlocks(blocks, i + 1, pkt))
  }

  /** The entries from block i on decide as the rules from i on do. */
  lemma {:induction false} BlocksAgree(blocks: seq<seq<Entry>>, rules: seq<Rule>, i: nat, pkt: Packet)
    requires i <= |rules| == |blocks|
    requires forall k | 0 <= k < |rules| :: DecidesLike(blocks, k, rules[k], pkt)
    ensures WalkBlocks(blocks, i, pkt) == EvaluateFrom(rules, i, pkt)
    decreases |rules| - i
  {
    if i < |rules| {
      BlocksAgree(blocks, rules, i + 1, pkt);
      EvaluateDecides(rules, i, pkt);
      assert DecidesLike(blocks, i, rules[i], pkt);
    } else {
      assert blocks[..i] == blocks;
    }
  }

  /** The compiled entries decide every packet as the policy does, with the
      same winning rule, the same default deny and the same classification
      errors. */
  lemma CompiledAgrees(rules: seq<Rule>, pkt: Packet)
    requires OneFamily(pkt) && |rules| <= 0x1_0000
    ensures WalkFrom(Compiled(rules), 0, pkt) == EvaluateFrom(rules, 0, pkt)
  {
    forall k | 0 <= k < |rules|
      ensures DecidesLike(Blocks(rules), k, rules[k], pkt)
    {
      ExpandRuleIsBlock(k, rules[k], pkt);
      WalkBlocksDecides(Blocks(rules), k, rules[k], pkt);
    }
    BlocksAgree(Blocks(rules), rules, 0, pkt);
    assert Blocks(rules)[..0] == [];
  }

  ghost predicate AgreesOn(rules: seq<Rule>, pkt: Packet) {
    WalkFrom(Compiled(rules), 0, pkt) == EvaluateFrom(rules, 0, pkt)
  }

  function ToDestination(pkt: Packet): Match {
    Match(None, None, None, [], [Prefix(pkt.dst, Bits(pkt.dst.family))], [], [], None)
  }

  lemma MixedNotMatched(pkt: Packet, x: Entry)
    requires !OneFamily(pkt) && x in ExpandRule(0, Rule(true, ToDestination(pkt)))
    ensures !EntryMatchesExceptPath(x, pkt)
  {
    var r := Rule(true, ToDestination(pkt));
    InExpandRule(0, r, x);
    var ap, sp, dp :| ap in AddressPairs(r.match_) && Combines(x, BaseEntry(0, r), r.match_, ap, sp, dp);
    InAddressPairs(r.match_, ap);
  }

  /** Agreement on every policy is exactly the packet having one family: on a
      mixed packet, a rule naming only its destination's prefix matches but its
      entry, fixed to that prefix's family, does not. */
  lemma AgreementNeedsOneFamily(pkt: Packet)
    ensures (forall rules | |rules| <= MAX_RULES :: AgreesOn(rules, pkt)) <==> OneFamily(pkt)
  {
    if OneFamily(pkt) {
      forall rules: seq<Rule> | |rules| <= MAX_RULES
        ensures AgreesOn(rules, pkt)
      {
        CompiledAgrees(rules, pkt);
      }
    } else {
      var rules := [Rule(true, ToDestination(pkt))];
      assert EvaluateFrom(rules, 0, pkt) == Verdict(true, 0, ByRule) by {
        assert Prefix(pkt.dst, Bits(pkt.dst.family)).Contains(pkt.dst);
      }
      FlattenOne(ExpandRule(0, rules[0]));
      assert Blocks(rules) == [ExpandRule(0, rules[0])];
      forall x | x in ExpandRule(0, rules[0])
        ensures !EntryMatchesExceptPath(x, pkt)
      {
        MixedNotMatched(pkt, x);
      }
      NothingMatches(Compiled(rules), 0, pkt);
      assert !AgreesOn(rules, pkt);
    }
  }

  lemma {:induction false} NothingMatches(entries: seq<Entry>, i: nat, pkt: Packet)
    requires i <= |entries| && forall x | x in entries :: !EntryMatchesExceptPath(x, pkt)
    ensures WalkFrom(entries, i, pkt) == Verdict(false, -1, NoMatch)
    decreases |entries| - i
  {
    if i < |entries| {
      NothingMatches(entries, i + 1, pkt);
    }
  }

  // ---- Counting without expanding

  lemma {:induction false} FlatMapConcat<A, B>(f: A -> seq<B>, xs: seq<A>, ys: seq<A>)
    ensures FlatMap(f, xs + ys) == FlatMap(f, xs) + FlatMap(f, ys)
  {
    if ys == [] {
      assert xs + ys == xs;
    } else {
      var init := ys[..|ys| - 1];
      FlatMapConcat(f, xs, init);
      assert (xs + ys)[..|xs + ys| - 1] == xs + init;
    }
  }

  /** When every image has the same length. */
  lemma {:induction false} FlatMapLength<A, B>(f: A -> seq<B>, xs: seq<A>, n: nat)
    requires forall i | 0 <= i < |xs| :: |f(xs[i])| == n
    ensures |FlatMap(f, xs)| == |xs| * n
  {
    if xs != [] {
      var init := xs[..|xs| - 1];
      FlatMapLength(f, init, n);
      Distribute(|init|, 1, n);
      assert FlatMap(f, xs) == FlatMap(f, init) + f(xs[|xs| - 1]);
    }
  }

  function Max1(n: nat): nat { if n == 0 then 1 else n }

  function PortCount(m: Match): nat { Max1(|m.sourcePorts|) * Max1(|m.destPorts|) }

  lemma PortEntriesLength(e: Entry, m: Match)
    ensures |PortEntries(e, m)| == PortCount(m)
  {
    var dps := Ranges(m.destPorts);
    forall sp
      ensures |PortsFn(e, dps)(sp)| == |dps|
    {
      FlatMapLength(RangeFn(e, sp), dps, 1);
    }
    FlatMapLength(PortsFn(e, dps), Ranges(m.sourcePorts), |dps|);
  }

  /** The address pair expands to anything at all. */
  predicate Live(fixed: Option<Family>, s: Option<Prefix>, d: Option<Prefix>) {
    && (s.Some? && d.Some? ==> s.value.addr.family == d.value.addr.family)
    && (s.Some? && fixed.Some? ==> s.value.addr.family == fixed.value)
    && (d.Some? && fixed.Some? ==> d.value.addr.family == fixed.value)
  }

  function CountLive(fixed: Option<Family>, s: Option<Prefix>, ds: seq<Option<Prefix>>): nat {
    if ds == [] then 0
    else CountLive(fixed, s, ds[..|ds| - 1]) + if Live(fixed, s, ds[|ds| - 1]) then 1 else 0
  }

  function CountPairs(fixed: Option<Family>, ss: seq<Option<Prefix>>, ds: seq<Option<Prefix>>): nat {
    if ss == [] then 0
    else CountPairs(fixed, ss[..|ss| - 1], ds) + CountLive(fixed, ss[|ss| - 1], ds)
  }

  lemma PairLength(index: nat, r: Rule, s: Option<Prefix>, d: Option<Prefix>)
    requires !Contradictory(r.match_)
    ensures |FlatMap(ExpandFn(BaseEntry(index, r), r.match_), PairsWith(s, d))| ==
            if Live(RuleFamily(r.match_), s, d) then PortCount(r.match_) else 0
  {
    var m, base, ap := r.match_, BaseEntry(index, r), AddressPair(s, d);
    if PairsWith(s, d) != [] {
      assert PairsWith(s, d)[..0] == [];
      assert FlatMap(ExpandFn(base, m), [ap]) == FlatMap(EntryFn(m), WithAddresses(base, ap));
      if WithAddresses(base, ap) != [] {
        var e := WithAddresses(base, ap)[0];
        assert WithAddresses(base, ap)[..0] == [];
        assert FlatMap(EntryFn(m), [e]) == PortEntries(e, m);
        PortEntriesLength(e, m);
      }
    }
  }

  /** f makes n entries of each live pair. */
  ghost predicate PerPair(f: AddressPair -> seq<Entry>, fixed: Option<Family>, n: nat) {
    forall s, d :: |FlatMap(f, PairsWith(s, d))| == if Live(fixed, s, d) then n else 0
  }

  lemma {:induction false} RowLength(f: AddressPair -> seq<Entry>, fixed: Option<Family>, n: nat,
                                     s: Option<Prefix>, ds: seq<Option<Prefix>>)
    requires PerPair(f, fixed, n)
    ensures |FlatMap(f, FlatMap(PairFn(s), ds))| == CountLive(fixed, s, ds) * n
  {
    if ds != [] {
      var init, d := ds[..|ds| - 1], ds[|ds| - 1];
      RowLength(f, fixed, n, s, init);
      FlatMapConcat(f, FlatMap(PairFn(s), init), PairsWith(s, d));
      assert |FlatMap(f, PairsWith(s, d))| == (if Live(fixed, s, d) then n else 0);
      Distribute(CountLive(fixed, s, init), if Live(fixed, s, d) then 1 else 0, n);
    }
  }

  lemma {:induction false} TableLength(f: AddressPair -> seq<Entry>, fixed: Option<Family>, n: nat,
                                       ss: seq<Option<Prefix>>, ds: seq<Option<Prefix>>)
    requires PerPair(f, fixed, n)
    ensures |FlatMap(f, FlatMap(SideFn(ds), ss))| == CountPairs(fixed, ss, ds) * n
  {
    if ss != [] {
      var init, s := ss[..|ss| - 1], ss[|ss| - 1];
      TableLength(f, fixed, n, init, ds);
      FlatMapConcat(f, FlatMap(SideFn(ds), init), FlatMap(PairFn(s), ds));
      RowLength(f, fixed, n, s, ds);
      Distribute(CountPairs(fixed, init, ds), CountLive(fixed, s, ds), n);
    }
  }

  lemma Distribute(a: nat, b: nat, n: nat)
    ensures (a + b) * n == a * n + b * n
  {
  }

  // ruleEntryCount's closed form.

  function CountFamily(ps: seq<Prefix>, fam: Family): nat {
    if ps == [] then 0
    else CountFamily(ps[..|ps| - 1], fam) + if ps[|ps| - 1].addr.family == fam then 1 else 0
  }

  /** The prefixes of family fam that the rule's own family leaves. */
  function Usable(fixed: Option<Family>, ps: seq<Prefix>, fam: Family): nat {
    if fixed.Some? && fixed.value != fam then 0 else CountFamily(ps, fam)
  }

  function PairCount(m: Match): nat {
    var fixed := RuleFamily(m);
    var s4, s6 := Usable(fixed, m.source, IPv4), Usable(fixed, m.source, IPv6);
    var d4, d6 := Usable(fixed, m.destination, IPv4), Usable(fixed, m.destination, IPv6);
    if m.source != [] && m.destination != [] then s4 * d4 + s6 * d6
    else if m.source != [] then s4 + s6
    else if m.destination != [] then d4 + d6
    else 1
  }

  function RuleEntryCount(m: Match): nat {
    if Contradictory(m) then 0 else PairCount(m) * PortCount(m)
  }

  lemma {:induction false} CountLiveSome(
    fixed: Option<Family>, s: Option<Prefix>, ps: seq<Prefix>, ds: seq<Option<Prefix>>)
    requires |ds| == |ps| && forall i | 0 <= i < |ps| :: ds[i] == Some(ps[i])
    ensures CountLive(fixed, s, ds) ==
            if s.None? then Usable(fixed, ps, IPv4) + Usable(fixed, ps, IPv6)
            else Usable(fixed, ps, s.value.addr.family)
  {
    if ps != [] {
      CountLiveSome(fixed, s, ps[..|ps| - 1], ds[..|ds| - 1]);
    }
  }

  lemma {:induction false} CountLiveAny(fixed: Option<Family>, p: Prefix)
    ensures CountLive(fixed, Some(p), [None]) == if fixed.Some? && fixed.value != p.addr.family then 0 else 1
    ensures CountLive(fixed, None, [None]) == 1
  {
    var any: seq<Option<Prefix>> := [None];
    assert any[..0] == [];
  }

  /** Whether the rule's own family leaves a prefix. */
  function One(fixed: Option<Family>, p: Prefix, fam: Family): nat {
    if p.addr.family == fam && (fixed.None? || fixed.value == fam) then 1 else 0
  }

  lemma UsableSnoc(fixed: Option<Family>, ps: seq<Prefix>, fam: Family)
    requires ps != []
    ensures Usable(fixed, ps, fam) == Usable(fixed, ps[..|ps| - 1], fam) + One(fixed, ps[|ps| - 1], fam)
  {
  }

  lemma {:induction false} CountPairsAny(fixed: Option<Family>, ps: seq<Prefix>, ss: seq<Option<Prefix>>)
    requires |ss| == |ps| && forall i | 0 <= i < |ps| :: ss[i] == Some(ps[i])
    ensures CountPairs(fixed, ss, [None]) == Usable(fixed, ps, IPv4) + Usable(fixed, ps, IPv6)
  {
    if ps != [] {
      CountPairsAny(fixed, ps[..|ps| - 1], ss[..|ss| - 1]);
      CountLiveAny(fixed, ps[|ps| - 1]);
    }
  }

  lemma {:induction false} CountPairsBoth(
    fixed: Option<Family>, ps: seq<Prefix>, ss: seq<Option<Prefix>>, dst: seq<Prefix>)
    requires |ss| == |ps| && dst != [] && forall i | 0 <= i < |ps| :: ss[i] == Some(ps[i])
    ensures CountPairs(fixed, ss, Sides(dst)) ==
            Usable(fixed, ps, IPv4) * Usable(fixed, dst, IPv4) + Usable(fixed, ps, IPv6) * Usable(fixed, dst, IPv6)
  {
    if ps != [] {
      var init, p := ps[..|ps| - 1], ps[|ps| - 1];
      var d4, d6 := Usable(fixed, dst, IPv4), Usable(fixed, dst, IPv6);
      CountPairsBoth(fixed, init, ss[..|ss| - 1], dst);
      CountLiveSome(fixed, Some(p), dst, Sides(dst));
      UsableSnoc(fixed, ps, IPv4);
      UsableSnoc(fixed, ps, IPv6);
      Distribute(Usable(fixed, init, IPv4), One(fixed, p, IPv4), d4);
      Distribute(Usable(fixed, init, IPv6), One(fixed, p, IPv6), d6);
      assert CountLive(fixed, Some(p), Sides(dst)) == One(fixed, p, IPv4) * d4 + One(fixed, p, IPv6) * d6;
    }
  }

  lemma PairsCounted(m: Match)
    ensures CountPairs(RuleFamily(m), Sides(m.source), Sides(m.destination)) == PairCount(m)
  {
    var fixed := RuleFamily(m);
    if m.source != [] {
      if m.destination == [] {
        CountPairsAny(fixed, m.source, Sides(m.source));
      } else {
        CountPairsBoth(fixed, m.source, Sides(m.source), m.destination);
      }
    } else {
      assert Sides(m.source)[..0] == [];
      if m.destination == [] {
        CountLiveAny(fixed, NO_PREFIX);
      } else {
        CountLiveSome(fixed, None, m.destination, Sides(m.destination));
      }
    }
  }

  /** Counting without expanding counts what expanding makes. */
  lemma RuleEntryCountCorrect(index: nat, r: Rule)
    ensures |ExpandRule(index, r)| == RuleEntryCount(r.match_)
  {
    var m := r.match_;
    if !Contradictory(m) {
      var f := ExpandFn(BaseEntry(index, r), m);
      forall s, d
        ensures |FlatMap(f, PairsWith(s, d))| == if Live(RuleFamily(m), s, d) then PortCount(m) else 0
      {
        PairLength(index, r, s, d);
      }
      assert PerPair(f, RuleFamily(m), PortCount(m));
      TableLength(f, RuleFamily(m), PortCount(m), Sides(m.source), Sides(m.destination));
      PairsCounted(m);
    }
  }
}
