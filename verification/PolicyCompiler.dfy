/** The loops of the policy compiler (internal/trafficpolicy/compile.go), the
    warnings it gives (Unreachable, Shadowed) and the explain command
    (cmd/galactic-router/policy.go). */
module PolicyCompiler {
  import opened Common
  import opened TrafficPolicy

  // ---- compile.go's loops

  method PairsOfSource(s: Option<Prefix>, dsts: seq<Option<Prefix>>) returns (out: seq<AddressPair>)
    ensures out == FlatMap(PairFn(s), dsts)
  {
    out := [];
    for j := 0 to |dsts|
      invariant out == FlatMap(PairFn(s), dsts[..j])
    {
      var d := dsts[j];
      assert dsts[..j + 1][..j] == dsts[..j];
      if !(s.Some? && d.Some? && s.value.addr.family != d.value.addr.family) {
        out := out + [AddressPair(s, d)];
      }
    }
    assert dsts[..|dsts|] == dsts;
  }

  method AddressPairsOf(m: Match) returns (out: seq<AddressPair>)
    ensures out == AddressPairs(m)
  {
    var srcs, dsts := Sides(m.source), Sides(m.destination);
    out := [];
    for i := 0 to |srcs|
      invariant out == FlatMap(SideFn(dsts), srcs[..i])
    {
      assert srcs[..i + 1][..i] == srcs[..i];
      var row := PairsOfSource(srcs[i], dsts);
      out := out + row;
    }
    assert srcs[..|srcs|] == srcs;
  }

  method PortEntriesOf(e: Entry, m: Match) returns (out: seq<Entry>)
    ensures out == PortEntries(e, m)
  {
    var sports, dports := Ranges(m.sourcePorts), Ranges(m.destPorts);
    out := [];
    for i := 0 to |sports|
      invariant out == FlatMap(PortsFn(e, dports), sports[..i])
    {
      var before := out;
      for j := 0 to |dports|
        invariant out == before + FlatMap(RangeFn(e, sports[i]), dports[..j])
      {
        assert dports[..j + 1][..j] == dports[..j];
        out := out + [WithPorts(e, sports[i], dports[j])];
      }
      assert dports[..|dports|] == dports && sports[..i + 1][..i] == sports[..i];
    }
    assert sports[..|sports|] == sports;
  }

  method ExpandRuleOf(index: nat, r: Rule) returns (out: seq<Entry>)
    ensures out == ExpandRule(index, r)
  {
    if Contradictory(r.match_) {
      return [];
    }
    var m, base := r.match_, BaseEntry(index, r);
    var pairs := AddressPairsOf(m);
    out := [];
    for i := 0 to |pairs|
      invariant out == FlatMap(ExpandFn(base, m), pairs[..i])
    {
      assert pairs[..i + 1][..i] == pairs[..i];
      var made := WithAddresses(base, pairs[i]);
      if made != [] {
        assert made == [made[0]] && made[..0] == [];
        assert FlatMap(EntryFn(m), made) == PortEntries(made[0], m);
        var more := PortEntriesOf(made[0], m);
        out := out + more;
      }
    }
    assert pairs[..|pairs|] == pairs;
  }

  method CountPrefixes(ps: seq<Prefix>) returns (v4: nat, v6: nat)
    ensures v4 == CountFamily(ps, IPv4) && v6 == CountFamily(ps, IPv6)
  {
    v4, v6 := 0, 0;
    for i := 0 to |ps|
      invariant v4 == CountFamily(ps[..i], IPv4) && v6 == CountFamily(ps[..i], IPv6)
    {
      assert ps[..i + 1][..i] == ps[..i];
      if ps[i].addr.family.IPv4? {
        v4 := v4 + 1;
      } else {
        v6 := v6 + 1;
      }
    }
    assert ps[..|ps|] == ps;
  }

  /** The prefixes that count, per family, once the rule's own family is fixed. */
  method UsablePrefixes(fixed: Option<Family>, ps: seq<Prefix>) returns (v4: nat, v6: nat)
    ensures v4 == Usable(fixed, ps, IPv4) && v6 == Usable(fixed, ps, IPv6)
  {
    v4, v6 := CountPrefixes(ps);
    if fixed.Some? {
      if fixed.value.IPv4? {
        v6 := 0;
      } else {
        v4 := 0;
      }
    }
  }

  method PairCountOf(m: Match) returns (pairs: nat)
    ensures pairs == PairCount(m)
  {
    var fixed := RuleFamily(m);
    var s4, s6 := UsablePrefixes(fixed, m.source);
    var d4, d6 := UsablePrefixes(fixed, m.destination);
    if m.source != [] && m.destination != [] {
      pairs := s4 * d4 + s6 * d6;
    } else if m.source != [] {
      pairs := s4 + s6;
    } else if m.destination != [] {
      pairs := d4 + d6;
    } else {
      pairs := 1;
    }
  }

  /** Counts a rule's entries without making them. */
  method RuleEntryCountOf(m: Match) returns (n: nat)
    ensures n == RuleEntryCount(m)
  {
    if Contradictory(m) {
      return 0;
    }
    var pairs := PairCountOf(m);
    n := pairs * PortCount(m);
  }

  lemma FlattenSnoc(rules: seq<Rule>, i: nat)
    requires i < |rules|
    ensures Compiled(rules[..i + 1]) == Compiled(rules[..i]) + ExpandRule(i, rules[i])
  {
    assert Blocks(rules[..i + 1])[..i] == Blocks(rules[..i]);
  }

  method EntryCount(rules: seq<Rule>) returns (n: nat)
    ensures n == |Compiled(rules)|
  {
    n := 0;
    for i := 0 to |rules|
      invariant n == |Compiled(rules[..i])|
    {
      FlattenSnoc(rules, i);
      var k := RuleEntryCountOf(rules[i].match_);
      RuleEntryCountCorrect(i, rules[i]);
      n := n + k;
    }
    assert rules[..|rules|] == rules;
  }

  /** Never truncates or reorders: the whole compilation or an error, decided by
      the counts alone. */
  method Compile(rules: seq<Rule>) returns (out: Option<seq<Entry>>)
    ensures out.Some? <==> |rules| <= MAX_RULES && |Compiled(rules)| <= MAX_COMPILED_ENTRIES
    ensures out.Some? ==> out.value == Compiled(rules)
  {
    if |rules| > MAX_RULES {
      return None;
    }
    var n := EntryCount(rules);
    if n > MAX_COMPILED_ENTRIES {
      return None;
    }
    var entries: seq<Entry> := [];
    for i := 0 to |rules|
      invariant entries == Compiled(rules[..i])
    {
      FlattenSnoc(rules, i);
      var more := ExpandRuleOf(i, rules[i]);
      entries := entries + more;
    }
    assert rules[..|rules|] == rules;
    return Some(entries);
  }

  method EvaluateEntries(entries: seq<Entry>, pkt: Packet) returns (v: Verdict)
    ensures v == WalkFrom(entries, 0, pkt)
  {
    for i := 0 to |entries|
      invariant WalkFrom(entries, 0, pkt) == WalkFrom(entries, i, pkt)
    {
      var e := entries[i];
      if !EntryMatchesExceptPath(e, pkt) {
        continue;
      }
      if e.flags.path {
        if pkt.path == PathUnknown {
          return Verdict(false, -1, ClassificationError);
        }
        if e.path != pkt.path {
          continue;
        }
      }
      return Verdict(e.flags.allow, e.rule, ByRule);
    }
    return Verdict(false, -1, NoMatch);
  }

  datatype Explanation =
    | MixedFamilies
    | Invalid
    | Explained(verdict: Verdict, entries: nat)
    | Disagreement

  /** explain refuses a packet of two families, and never meets the disagreement it
      is written to report. */
  method Explain(rules: seq<Rule>, pkt: Packet) returns (x: Explanation)
    ensures !x.Disagreement?
    ensures x.MixedFamilies? <==> !OneFamily(pkt)
    ensures x.Invalid? <==> OneFamily(pkt) && (|rules| > MAX_RULES || |Compiled(rules)| > MAX_COMPILED_ENTRIES)
    ensures x.Explained? ==> x.verdict == EvaluateFrom(rules, 0, pkt) && x.entries == |Compiled(rules)|
  {
    if pkt.src.family != pkt.dst.family {
      return MixedFamilies;
    }
    var want := Evaluate(rules, pkt);
    var entries := Compile(rules);
    if entries.None? {
      return Invalid;
    }
    var got := EvaluateEntries(entries.value, pkt);
    CompiledAgrees(rules, pkt);
    return if got == want then Explained(want, |entries.value|) else Disagreement;
  }

  // ---- Rules that never decide

  predicate Hits(m: Match, pkt: Packet) {
    MatchesExceptPath(m, pkt) && (m.path.Some? ==> pkt.path != PathUnknown && m.path.value == pkt.path)
  }

  predicate Passes(m: Match, pkt: Packet) {
    !MatchesExceptPath(m, pkt) || (m.path.Some? && pkt.path != PathUnknown && m.path.value != pkt.path)
  }

  /** First match: the winning rule hits the packet and every earlier one passes it. */
  lemma {:induction false} WinnerIsFirst(rules: seq<Rule>, from: nat, pkt: Packet)
    requires from <= |rules|
    ensures var v := EvaluateFrom(rules, from, pkt);
            && (v.reason.ByRule? ==>
                  && from <= v.rule < |rules| && v.allow == rules[v.rule].allow && Hits(rules[v.rule].match_, pkt)
                  && forall k | from <= k < v.rule :: Passes(rules[k].match_, pkt))
            && (v.reason.NoMatch? ==> !v.allow && forall k | from <= k < |rules| :: Passes(rules[k].match_, pkt))
            && (v.reason.ClassificationError? ==> !v.allow && pkt.path == PathUnknown)
    decreases |rules| - from
  {
    if from < |rules| {
      WinnerIsFirst(rules, from + 1, pkt);
    }
  }

  /** No prefix is longer than its family, as no parsed prefix is. */
  ghost predicate ValidPrefixes(m: Match) {
    && (forall p | p in m.source :: p.length <= Bits(p.addr.family))
    && (forall p | p in m.destination :: p.length <= Bits(p.addr.family))
  }

  /** Some port is in one of the ranges, or any port will do. */
  ghost predicate HasPort(rs: seq<PortRange>) {
    rs == [] || exists r | r in rs :: r.start <= r.end
  }

  /** An alternative of the ranges that some port is in. */
  ghost predicate GoodRange(rs: seq<PortRange>, p: Option<PortRange>) {
    p in Ranges(rs) && (p.Some? ==> p.value.start <= p.value.end)
  }

  lemma PickRange(rs: seq<PortRange>) returns (p: Option<PortRange>)
    requires HasPort(rs)
    ensures GoodRange(rs, p)
  {
    if rs == [] {
      return None;
    }
    var i :| 0 <= i < |rs| && rs[i].start <= rs[i].end;
    p := Some(rs[i]);
    assert Ranges(rs)[i] == p;
  }

  /** A packet one combination matches. */
  function PacketFor(m: Match, ap: AddressPair, sp: Option<PortRange>, dp: Option<PortRange>): Packet {
    var fam := if PairFamily(ap).Some? then PairFamily(ap).value
               else if RuleFamily(m).Some? then RuleFamily(m).value else IPv4;
    Packet(PathPrivate,
           if ap.src.Some? then ap.src.value.addr else Addr(fam, 0),
           if ap.dst.Some? then ap.dst.value.addr else Addr(fam, 0),
           if m.proto.Some? then m.proto.value else 0,
           if sp.Some? then sp.value.start else 0,
           if dp.Some? then dp.value.start else 0,
           if m.icmp.Some? then m.icmp.value.kind else 0,
           if m.icmp.Some? then m.icmp.value.code else 0)
  }

  lemma PacketMatchesPair(m: Match, ap: AddressPair, sp: Option<PortRange>, dp: Option<PortRange>)
    requires ValidPrefixes(m) && ap in AddressPairs(m) && GoodRange(m.sourcePorts, sp) && GoodRange(m.destPorts, dp)
    ensures AlternativeMatches(ap, sp, dp, PacketFor(m, ap, sp, dp))
  {
    InAddressPairs(m, ap);
    SomeIn(m.source, ap.src);
    SomeIn(m.destination, ap.dst);
  }

  lemma RuleIsReachable(index: nat, r: Rule, x: Entry) returns (pkt: Packet)
    requires ValidPrefixes(r.match_) && x in ExpandRule(index, r)
    requires HasPort(r.match_.sourcePorts) && HasPort(r.match_.destPorts)
    ensures OneFamily(pkt) && MatchesExceptPath(r.match_, pkt)
  {
    var m, base := r.match_, BaseEntry(index, r);
    InExpandRule(index, r, x);
    var ap, s0, d0 :| ap in AddressPairs(m) && Combines(x, base, m, ap, s0, d0);
    var sp := PickRange(m.sourcePorts);
    var dp := PickRange(m.destPorts);
    var y := CombinationEntry(index, r, ap, sp, dp);
    pkt := PacketFor(m, ap, sp, dp);
    PacketMatchesEntry(index, r, ap, sp, dp);
    EntryHasMatch(index, r, pkt, y);
  }

  lemma CombinationEntry(index: nat, r: Rule, ap: AddressPair, sp: Option<PortRange>, dp: Option<PortRange>)
    returns (y: Entry)
    requires !Contradictory(r.match_) && ap in AddressPairs(r.match_) && WithAddresses(BaseEntry(index, r), ap) != []
    requires sp in Ranges(r.match_.sourcePorts) && dp in Ranges(r.match_.destPorts)
    ensures y == WithPorts(WithAddresses(BaseEntry(index, r), ap)[0], sp, dp) && y in ExpandRule(index, r)
  {
    y := WithPorts(WithAddresses(BaseEntry(index, r), ap)[0], sp, dp);
    assert Combines(y, BaseEntry(index, r), r.match_, ap, sp, dp);
    InExpandRule(index, r, y);
  }

  lemma PacketMatchesEntry(index: nat, r: Rule, ap: AddressPair, sp: Option<PortRange>, dp: Option<PortRange>)
    requires ValidPrefixes(r.match_) && !Contradictory(r.match_) && ap in AddressPairs(r.match_)
    requires WithAddresses(BaseEntry(index, r), ap) != []
    requires GoodRange(r.match_.sourcePorts, sp) && GoodRange(r.match_.destPorts, dp)
    ensures var pkt := PacketFor(r.match_, ap, sp, dp);
            && OneFamily(pkt)
            && EntryMatchesExceptPath(WithPorts(WithAddresses(BaseEntry(index, r), ap)[0], sp, dp), pkt)
  {
    var m := r.match_;
    InAddressPairs(m, ap);
    PacketMatchesPair(m, ap, sp, dp);
    CombinationMatches(index, r, ap, sp, dp, PacketFor(m, ap, sp, dp));
  }

  lemma MatchNeedsPort(m: Match, pkt: Packet)
    requires MatchesExceptPath(m, pkt)
    ensures HasPort(m.sourcePorts) && HasPort(m.destPorts)
  {
  }

  /** No one-family packet satisfies the rule. */
  ghost predicate Unsatisfiable(m: Match) {
    forall pkt | OneFamily(pkt) :: !MatchesExceptPath(m, pkt)
  }

  /** A rule counts no entries, or lists no port at all, exactly when no packet can
      satisfy it. */
  lemma UnreachableExact(index: nat, r: Rule)
    requires ValidPrefixes(r.match_)
    ensures Unsatisfiable(r.match_) <==>
            RuleEntryCount(r.match_) == 0 || !HasPort(r.match_.sourcePorts) || !HasPort(r.match_.destPorts)
  {
    var m := r.match_;
    RuleEntryCountCorrect(index, r);
    if RuleEntryCount(m) == 0 || !HasPort(m.sourcePorts) || !HasPort(m.destPorts) {
      forall pkt | OneFamily(pkt)
        ensures !MatchesExceptPath(m, pkt)
      {
        if MatchesExceptPath(m, pkt) {
          MatchNeedsPort(m, pkt);
          var x := MatchHasEntry(index, r, pkt);
        }
      }
    } else {
      var pkt := RuleIsReachable(index, r, ExpandRule(index, r)[0]);
    }
  }

  /** The rules reported are those that count no entries: no packet satisfies one,
      and any other with a port in its ranges is satisfied by some. */
  method Unreachable(rules: seq<Rule>) returns (out: seq<nat>)
    requires forall r | r in rules :: ValidPrefixes(r.match_)
    ensures forall i | i in out :: i < |rules| && Unsatisfiable(rules[i].match_)
    ensures forall i: nat | i < |rules| && HasPort(rules[i].match_.sourcePorts) && HasPort(rules[i].match_.destPorts) ::
              i in out <==> Unsatisfiable(rules[i].match_)
    ensures forall j, k | 0 <= j < k < |out| :: out[j] < out[k]
  {
    out := [];
    for i := 0 to |rules|
      invariant forall k: nat :: k in out <==> k < i && RuleEntryCount(rules[k].match_) == 0
      invariant forall j, k | 0 <= j < k < |out| :: out[j] < out[k]
      invariant forall k | 0 <= k < |out| :: out[k] in out
    {
      var n := RuleEntryCountOf(rules[i].match_);
      if n == 0 {
        out := out + [i];
      }
    }
    forall i: nat | i < |rules|
      ensures i in out ==> Unsatisfiable(rules[i].match_)
      ensures HasPort(rules[i].match_.sourcePorts) && HasPort(rules[i].match_.destPorts) ==>
                (i in out <==> Unsatisfiable(rules[i].match_))
    {
      UnreachableExact(i, rules[i]);
    }
  }

  const ANYTHING := Match(None, None, None, [], [], [], [], None)

  predicate Covers(earlier: Match, later: Match) {
    earlier == ANYTHING || earlier == later
  }

  /** A rule that gives no field hits every packet, and covers every rule; so does a
      rule its equal. */
  lemma CatchAllCovers(m: Match, pkt: Packet)
    ensures Hits(ANYTHING, pkt) && Covers(ANYTHING, m) && Covers(m, m)
  {
  }

  method FirstCovering(rules: seq<Rule>, i: nat) returns (j: nat)
    requires i < |rules|
    ensures j <= i && (j < i ==> Covers(rules[j].match_, rules[i].match_))
    ensures forall h | 0 <= h < j :: !Covers(rules[h].match_, rules[i].match_)
  {
    for k := 0 to i
      invariant forall h | 0 <= h < k :: !Covers(rules[h].match_, rules[i].match_)
    {
      if Covers(rules[k].match_, rules[i].match_) {
        return k;
      }
    }
    return i;
  }

  method Shadowed(rules: seq<Rule>) returns (out: map<nat, nat>)
    ensures forall i: nat | i in out :: out[i] < i < |rules| && Covers(rules[out[i]].match_, rules[i].match_)
    ensures forall i: nat, j: nat | j < i < |rules| && Covers(rules[j].match_, rules[i].match_) ::
              i in out && out[i] <= j
  {
    out := map[];
    for i := 0 to |rules|
      invariant forall k: nat | k in out :: out[k] < k < i && Covers(rules[out[k]].match_, rules[k].match_)
      invariant forall k: nat, j: nat | j < k < i && Covers(rules[j].match_, rules[k].match_) :: k in out && out[k] <= j
    {
      var j := FirstCovering(rules, i);
      if j < i {
        out := out[i := j];
      }
    }
  }

  /** A rule reported shadowed decides no packet. */
  lemma ShadowedNeverWins(rules: seq<Rule>, j: nat, i: nat, pkt: Packet)
    requires j < i < |rules| && Covers(rules[j].match_, rules[i].match_)
    ensures EvaluateFrom(rules, 0, pkt).rule != i
  {
    WinnerIsFirst(rules, 0, pkt);
    NoRuleIndex(rules, 0, pkt);
  }

  lemma {:induction false} NoRuleIndex(rules: seq<Rule>, from: nat, pkt: Packet)
    requires from <= |rules|
    ensures !EvaluateFrom(rules, from, pkt).reason.ByRule? ==> EvaluateFrom(rules, from, pkt).rule == -1
    decreases |rules| - from
  {
    if from < |rules| {
      NoRuleIndex(rules, from + 1, pkt);
    }
  }
}
