/** How a new interface's traffic policy is activated
    (internal/cnibgp/trafficpolicy.go). Every call the code makes on the kernel
    or a pinned map is an event of a log, and a World answers each as it likes,
    whatever came before, so nothing is assumed about the link, the maps or what
    fails. A monitor reads the log alone and says what the code may do next. */
module Activation {
  import opened Common

  datatype Opened = Opened | Missing | Failed
  datatype LinkAnswer = Found(up: bool) | Absent | Unreadable
  datatype State = State(on: bool, capable: bool)
  datatype Row = Row(tenant: bool, token: nat)
  datatype Listing = NoTable | TableFailed | Unlisted | Listed

  datatype Event =
    | ModeRead(mode: Option<bool>)
    | MapsOpened(answer: Opened)
    | StateRead(state: Option<State>)
    | LinkSeen(link: LinkAnswer)
    | TakenDown(ok: bool)
    | BroughtUp(ok: bool)
    | RowRead(row: Option<Row>)
    | TokenDrawn(drawn: Option<nat>)
    | RowWritten(token: nat, ok: bool)
    | AddressWritten(address: nat, ok: bool)
    | ProgramLoaded(ok: bool)
    | DeliverAttached(ok: bool)
    | DeliverRead(there: Option<bool>)
    | EgressRead(there: Option<bool>)
    | PortsRead(listing: Listing)
    | GatewayRestored(ok: bool)

  type History = Log<Event>

  /** The answer to the next call, given everything before it. */
  datatype World = World(
    mode: History -> Option<bool>, maps: History -> Opened, state: History -> Option<State>,
    link: History -> LinkAnswer, row: History -> Option<Row>, random: History -> Option<nat>,
    there: History -> Option<bool>, ports: History -> Listing, ok: History -> bool)

  // ---- The monitor

  datatype Place = Unknown | Down | Up | Gone

  datatype LinkView = LinkView(
    at: Place,       // the link as last seen or set
    stuck: bool,     // a link not known down could not be read or taken down
    foreign: bool)   // someone else changed the link

  datatype RowView = RowView(
    read: bool,             // the interface's policy row was looked up
    written: bool,          // the interface's policy row was written
    live: Option<nat>,      // the token of a live tenant row
    drawn: Option<nat>,     // a fresh token
    addresses: seq<nat>)    // the addresses written

  datatype NodeView = NodeView(
    active: bool,    // the mode was read as on, or could not be read where that counts as on
    off: bool,       // the mode was read as off, or the datapath has none
    blind: bool,     // the policy state could not be read
    capable: bool,   // the node was read as able to enforce
    mapped: bool)    // the policy maps were opened

  datatype Hooks = Hooks(
    deliver: Option<bool>,  // whether tp_deliver was last read back attached
    egress: bool)           // the egress programs were read back attached

  datatype Program = Program(
    loaded: bool,           // tp_deliver was found on this node
    attached: bool)         // tp_deliver was attached

  /** listed is whether the link lists host-only ports, asked whether that was read,
      or there was no link to read it of. */
  datatype Monitor = Monitor(
    node: NodeView, link: LinkView, row: RowView, hooks: Hooks, program: Program, listed: bool, asked: bool)

  const START := Monitor(
    NodeView(false, false, false, false, false), LinkView(Unknown, false, false),
    RowView(false, false, None, None, []), Hooks(None, false), Program(false, false), false, false)

  predicate Verified(m: Monitor) {
    m.node.capable && m.hooks.deliver == Some(true) && m.hooks.egress && m.row.written
  }

  /** What a link needs to come up: under an active policy it is verified; its row
      is written where there are maps, and tp_deliver attached where there is one,
      so that a node switched on later needs no recreation; and host-only ports
      are behind tp_deliver. */
  predicate Ready(m: Monitor) {
    && (m.node.active ==> Verified(m))
    && (m.node.mapped ==> m.row.written)
    && (m.program.loaded ==> m.program.attached)
    && (m.listed ==> m.hooks.deliver == Some(true))
  }

  function StepNode(n: NodeView, e: Event): NodeView {
    match e
    case ModeRead(a) => n.(active := n.active || a != Some(false), off := a == Some(false))
    case MapsOpened(o) => n.(active := n.active || o.Failed?, off := o.Missing?, mapped := o.Opened?)
    case StateRead(None) => n.(blind := true)
    case StateRead(Some(s)) => n.(active := n.active || s.on, off := !s.on, capable := s.capable)
    case _ => n
  }

  function SeeLink(v: LinkView, a: LinkAnswer): LinkView {
    match a
    case Found(up) =>
      LinkView(if up then Up else Down, v.stuck,
               v.foreign || v.at.Gone? || (v.at.Up? && !up) || (v.at.Down? && up))
    case Absent => v.(at := Gone)
    case Unreadable => v.(stuck := v.stuck || v.at.Unknown? || v.at.Up?)
  }

  function StepLink(v: LinkView, e: Event): LinkView {
    match e
    case LinkSeen(a) => SeeLink(v, a)
    case TakenDown(ok) => if ok then v.(at := Down) else v.(stuck := true)
    case BroughtUp(ok) => if ok then v.(at := Up) else v
    case _ => v
  }

  function LiveToken(r: Option<Row>): Option<nat> {
    if r.Some? && r.value.tenant && r.value.token != 0 then Some(r.value.token) else None
  }

  function StepRow(v: RowView, e: Event): RowView {
    match e
    case RowRead(r) => v.(read := true, live := LiveToken(r))
    case TokenDrawn(t) => v.(drawn := t)
    case RowWritten(_, ok) => v.(written := ok)
    case AddressWritten(a, ok) => if ok then v.(addresses := v.addresses + [a]) else v
    case _ => v
  }

  function StepHooks(v: Hooks, e: Event): Hooks {
    match e
    case DeliverRead(t) => v.(deliver := t)
    case EgressRead(t) => v.(egress := t == Some(true))
    case _ => v
  }

  function StepProgram(v: Program, e: Event): Program {
    match e
    case ProgramLoaded(ok) => v.(loaded := ok)
    case DeliverAttached(ok) => v.(attached := ok)
    case _ => v
  }

  function Step(m: Monitor, e: Event): Monitor {
    Monitor(StepNode(m.node, e), StepLink(m.link, e), StepRow(m.row, e), StepHooks(m.hooks, e),
            StepProgram(m.program, e), if e.PortsRead? then e.listing.Listed? else m.listed,
            m.asked || e.PortsRead? || e == LinkSeen(Absent))
  }

  /** What the activation promises before each effect: a link comes up only when
      it is ready and its host-only ports were asked for, and a live tenant row is
      looked up and keeps its token. */
  predicate Allowed(m: Monitor, e: Event) {
    match e
    case BroughtUp(_) => Ready(m) && m.asked
    case RowWritten(t, _) => m.row.read && t != 0 && Some(t) == if m.row.live.Some? then m.row.live else m.row.drawn
    case GatewayRestored(_) => !m.link.at.Gone? && Ready(m) && m.asked
    case _ => true
  }

  ghost function Run(log: History): Monitor {
    match log
    case Empty => START
    case Snoc(prev, last) => Step(Run(prev), last)
  }

  ghost predicate Kept(log: History) {
    log.Snoc? ==> Kept(log.prev) && Allowed(Run(log.prev), log.last)
  }

  // ---- What the monitor's verdict means, read from the log

  ghost predicate Has(log: History, e: Event) {
    log.Snoc? && (log.last == e || Has(log.prev, e))
  }

  /** An effect's promise holds wherever it stands in the log. */
  lemma {:induction false} KeptEverywhere(log: History, p: History)
    requires Kept(log) && PrefixOf(p, log) && p.Snoc?
    ensures Allowed(Run(p.prev), p.last)
  {
    if p != log {
      KeptEverywhere(log.prev, p);
    }
  }

  lemma {:induction false} ActiveMeans(log: History, s: State)
    requires Has(log, StateRead(Some(s))) && s.on
    ensures Run(log).node.active
  {
    if log.last != StateRead(Some(s)) {
      ActiveMeans(log.prev, s);
    }
  }

  lemma {:induction false} VerifiedMeans(log: History)
    ensures Run(log).hooks.deliver == Some(true) ==> Has(log, DeliverRead(Some(true)))
    ensures Run(log).hooks.egress ==> Has(log, EgressRead(Some(true)))
    ensures Run(log).row.written ==> exists t :: Has(log, RowWritten(t, true))
  {
    if log.Snoc? {
      VerifiedMeans(log.prev);
      if log.last.RowWritten? {
        assert Run(log).row.written ==> Has(log, RowWritten(log.last.token, true));
      } else if Run(log).row.written {
        var t :| Has(log.prev, RowWritten(t, true));
        assert Has(log, RowWritten(t, true));
      }
    }
  }

  /** Once the mode was read active, no link is brought up before tp_deliver and
      the egress programs were read back and the policy row was written. */
  lemma UpOnlyVerified(log: History, p: History, s: State)
    requires Kept(log) && PrefixOf(p, log) && p.Snoc? && p.last.BroughtUp?
    requires Has(p.prev, StateRead(Some(s))) && s.on
    ensures Has(p.prev, DeliverRead(Some(true))) && Has(p.prev, EgressRead(Some(true)))
    ensures exists t :: Has(p.prev, RowWritten(t, true))
  {
    KeptEverywhere(log, p);
    ActiveMeans(p.prev, s);
    VerifiedMeans(p.prev);
  }

  // ---- Where the log comes from, and what refuses

  /** The event is the world's answer to the call made after log. */
  predicate Answer(w: World, log: History, e: Event) {
    match e
    case ModeRead(mode) => mode == w.mode(log)
    case MapsOpened(answer) => answer == w.maps(log)
    case StateRead(state) => state == w.state(log)
    case LinkSeen(link) => link == w.link(log)
    case RowRead(row) => row == w.row(log)
    case TokenDrawn(drawn) => drawn.Some? <==> w.random(log).Some?
    case DeliverRead(there) => there == w.there(log)
    case EgressRead(there) => there == w.there(log)
    case PortsRead(listing) => listing == w.ports(log)
    case TakenDown(ok) => ok == w.ok(log)
    case BroughtUp(ok) => ok == w.ok(log)
    case RowWritten(_, ok) => ok == w.ok(log)
    case AddressWritten(_, ok) => ok == w.ok(log)
    case ProgramLoaded(ok) => ok == w.ok(log)
    case DeliverAttached(ok) => ok == w.ok(log)
    case GatewayRestored(ok) => ok == w.ok(log)
  }

  ghost predicate Answered(w: World, log: History) {
    log.Snoc? ==> Answered(w, log.prev) && Answer(w, log.prev, log.last)
  }

  /** An answer that refuses the ADD. A missing link refuses only before the row is
      written where there are maps, and a node without tp_deliver only with the
      policy on. */
  predicate Fault(m: Monitor, e: Event) {
    match e
    case ModeRead(mode) => mode != Some(false)
    case MapsOpened(answer) => answer.Failed?
    case StateRead(state) => state.None? || (state.value.on && !state.value.capable)
    case LinkSeen(link) => link.Unreadable? || (link.Absent? && m.node.mapped && !m.row.written)
    case RowRead(_) => false
    case TokenDrawn(drawn) => drawn.None?
    case DeliverRead(there) => there != Some(true)
    case EgressRead(there) => there != Some(true)
    case PortsRead(listing) => listing.TableFailed?
    case TakenDown(ok) => !ok
    case BroughtUp(ok) => !ok
    case RowWritten(_, ok) => !ok
    case AddressWritten(_, ok) => !ok
    case ProgramLoaded(ok) => !ok && m.node.active
    case DeliverAttached(ok) => !ok
    case GatewayRestored(ok) => !ok
  }

  ghost predicate Faulty(log: History) {
    log.Snoc? && (Faulty(log.prev) || Fault(Run(log.prev), log.last))
  }

  /** What the code did and was told, in order, and each promise kept. */
  ghost predicate Traced(w: World, log: History) {
    Kept(log) && Answered(w, log)
  }

  /** Every call answers well, and the link is as it was last set. */
  ghost predicate Well(w: World) {
    && (forall h :: w.mode(h) == Some(false)) && (forall h :: !w.maps(h).Failed?)
    && (forall h :: w.state(h).Some? && w.state(h).value.capable) && (forall h :: w.random(h).Some?)
    && (forall h :: w.there(h) == Some(true)) && (forall h :: !w.ports(h).TableFailed?) && (forall h :: w.ok(h))
    && forall h :: SeesItself(w, h)
  }

  ghost predicate SeesItself(w: World, h: History) {
    && w.link(h).Found?
    && (Run(h).link.at.Up? ==> w.link(h).up) && (Run(h).link.at.Down? ==> !w.link(h).up)
  }

  /** There is one with the policy on, and one with it off. */
  lemma WellExists(on: bool)
    ensures exists w: World :: Well(w) && forall h :: w.state(h) == Some(State(on, true))
  {
    var w := World(
      (h: History) => Some(false), (h: History) => Opened, (h: History) => Some(State(on, true)),
      (h: History) => Found(Run(h).link.at.Up?), (h: History) => None, (h: History) => Some(1),
      (h: History) => Some(true), (h: History) => Unlisted, (h: History) => true);
    assert forall h :: SeesItself(w, h);
    assert Well(w);
  }

  /** In such a world nothing refuses. */
  lemma {:induction false} WellNotFaulty(w: World, log: History)
    requires Well(w) && Answered(w, log)
    ensures !Faulty(log) && !Run(log).link.foreign && !Run(log).link.at.Gone?
  {
    if log.Snoc? {
      WellNotFaulty(w, log.prev);
      assert SeesItself(w, log.prev);
    }
  }

  // ---- The code

  method Note(w: World, log: History, e: Event) returns (out: History)
    requires Traced(w, log) && Allowed(Run(log), e) && Answer(w, log, e)
    ensures out == Snoc(log, e) && Traced(w, out) && Run(out) == Step(Run(log), e)
    ensures Faulty(out) <==> Faulty(log) || Fault(Run(log), e)
  {
    out := Snoc(log, e);
  }

  /** Nothing but the link, and whether its ports were asked for, has changed. */
  predicate OnlyLink(a: Monitor, b: Monitor) {
    b == a.(link := b.link, asked := b.asked) && (a.asked ==> b.asked)
  }

  method Quarantine(w: World, log: History) returns (err: bool, out: History)
    requires Traced(w, log)
    requires Faulty(log) || (Run(log).node.mapped && !Run(log).row.written)
    ensures Faulty(out) <==> Faulty(log) || err
    ensures Traced(w, out) && OnlyLink(Run(log), Run(out))
    ensures !err ==> Run(out).asked == Run(log).asked
    ensures var a, b := Run(log).link, Run(out).link;
            && (a.stuck ==> b.stuck) && (a.foreign ==> b.foreign)
            && (if err then !b.at.Up? || b.stuck else b.at.Down?)
            && (a.at.Down? && b.at.Up? ==> b.foreign)
            && (b.at.Unknown? ==> b.stuck)
  {
    var link := w.link(log);
    out := Note(w, log, LinkSeen(link));
    if !link.Found? {
      return true, out;
    }
    if !link.up {
      return false, out;
    }
    var ok := w.ok(out);
    out := Note(w, out, TakenDown(ok));
    return !ok, out;
  }

  /** Refuses, and quarantines, a link whose host-only ports nothing enforces. */
  method RefuseUnfencedHostOnlyPorts(w: World, log: History) returns (err: bool, out: History)
    requires Traced(w, log) && !Run(log).listed && !Faulty(log) && (Run(log).node.mapped ==> Run(log).row.written)
    ensures Traced(w, out) && (err <==> Faulty(out))
    ensures OnlyLink(Run(log).(hooks := Run(out).hooks, listed := Run(out).listed), Run(out))
    ensures !err ==> Run(out).asked
    ensures var a, b := Run(log), Run(out);
            && b.hooks.egress == a.hooks.egress
            && (!err ==> b.hooks.deliver == a.hooks.deliver || b.hooks.deliver == Some(true))
            && (!err && b.listed ==> b.hooks.deliver == Some(true))
            && (b.listed && b.hooks.deliver == Some(false) ==> !b.link.at.Up? || b.link.stuck)
    ensures var a, b := Run(log).link, Run(out).link;
            && (a.stuck ==> b.stuck) && (a.foreign ==> b.foreign)
            && (a.at.Down? && b.at.Up? ==> b.foreign)
            && (b.at.Unknown? ==> b.stuck)
  {
    var link := w.link(log);
    out := Note(w, log, LinkSeen(link));
    if !link.Found? {
      return !link.Absent?, out;
    }
    var listing := w.ports(out);
    out := Note(w, out, PortsRead(listing));
    if !listing.Listed? {
      return listing.TableFailed?, out;
    }
    var there := w.there(out);
    out := Note(w, out, DeliverRead(there));
    if there.None? || there.value {
      return there.None?, out;
    }
    var e;
    e, out := Quarantine(w, out);
    return true, out;
  }

  method EnsureLinkUp(w: World, log: History) returns (err: bool, out: History)
    requires Traced(w, log) && Allowed(Run(log), BroughtUp(true)) && !Faulty(log)
    ensures (err <==> Faulty(out)) && Traced(w, out) && OnlyLink(Run(log), Run(out))
    ensures var a, b := Run(log).link, Run(out).link;
            && (a.stuck ==> b.stuck) && (a.foreign ==> b.foreign)
            && (!err ==> b.at.Up? || b.at.Gone?)
            && (b.at.Unknown? ==> b.stuck)
  {
    var link := w.link(log);
    out := Note(w, log, LinkSeen(link));
    if !link.Found? {
      return !link.Absent?, out;
    }
    if link.up {
      return false, out;
    }
    var ok := w.ok(out);
    out := Note(w, out, BroughtUp(ok));
    return !ok, out;
  }

  /** How an activation may end. Refused, the link is not left up under an active
      policy unless it was verified, and not with host-only ports read back
      unenforced. Accepted, it is up, verified if the policy is active, and its
      host-only ports are enforced, or it is gone. */
  predicate Ended(m: Monitor, err: bool) {
    && (!m.node.blind && m.link.at.Unknown? ==> m.link.stuck)
    && (if err then
          && (m.node.active && m.link.at.Up? ==> Verified(m) || m.link.stuck || m.link.foreign)
          && (m.listed && m.hooks.deliver == Some(false) ==> !m.link.at.Up? || m.link.stuck)
        else
          && Ready(m)
          && (m.link.at.Up? || m.link.at.Gone? || m.link.foreign))
  }

  ghost predicate Finished(log: History) {
    log.Snoc? && (log.last == LinkSeen(Absent) || log.last == GatewayRestored(true))
  }

  /** The bring-up once the host-only ports are known enforced. */
  method RaiseAndRestore(w: World, log: History) returns (err: bool, out: History)
    requires Traced(w, log) && Allowed(Run(log), BroughtUp(true)) && !Faulty(log)
    ensures (err <==> Faulty(out)) && Traced(w, out) && OnlyLink(Run(log), Run(out))
    ensures !err ==> Finished(out) && (Run(out).link.at.Up? || Run(out).link.at.Gone? || Run(out).link.foreign)
    ensures Run(out).link.at.Unknown? ==> Run(out).link.stuck
  {
    err, out := EnsureLinkUp(w, log);
    if err {
      return;
    }
    var link := w.link(out);
    out := Note(w, out, LinkSeen(link));
    if !link.Found? {
      return !link.Absent?, out;
    }
    var ok := w.ok(out);
    out := Note(w, out, GatewayRestored(ok));
    return !ok, out;
  }

  method BringUp(w: World, log: History) returns (err: bool, out: History)
    requires Traced(w, log) && !Run(log).listed && !Run(log).node.blind && !Faulty(log)
    requires Ready(Run(log)) && (Run(log).node.active ==> Run(log).link.at.Down? || Run(log).link.foreign)
    ensures (err <==> Faulty(out)) && Traced(w, out) && Ended(Run(out), err)
    ensures OnlyLink(Run(log).(hooks := Run(out).hooks, listed := Run(out).listed), Run(out))
    ensures !err ==> Finished(out)
  {
    err, out := RefuseUnfencedHostOnlyPorts(w, log);
    if err {
      return;
    }
    err, out := RaiseAndRestore(w, out);
  }

  /** A random token with its lowest bit set. */
  function Fresh(random: nat): (t: nat)
    ensures t != 0
  {
    if random % 2 == 0 then random + 1 else random
  }

  method WriteAddresses(w: World, log: History, addresses: seq<nat>) returns (err: bool, out: History)
    requires Traced(w, log) && Run(log).row.addresses == [] && !Faulty(log)
    ensures Traced(w, out) && (err <==> Faulty(out))
    ensures Run(out) == Run(log).(row := Run(log).row.(addresses := Run(out).row.addresses))
    ensures !err ==> Run(out).row.addresses == addresses
  {
    out := log;
    for i := 0 to |addresses|
      invariant Traced(w, out) && !Faulty(out)
      invariant Run(out) == Run(log).(row := Run(log).row.(addresses := addresses[..i]))
    {
      var ok := w.ok(out);
      out := Note(w, out, AddressWritten(addresses[i], ok));
      if !ok {
        return true, out;
      }
    }
    return false, out;
  }

  /** Writes the interface's row and addresses. */
  method WriteRow(w: World, log: History, addresses: seq<nat>) returns (err: bool, out: History)
    requires Traced(w, log) && Run(log).row.addresses == [] && !Faulty(log)
    ensures (err <==> Faulty(out)) && Traced(w, out) && Run(out) == Run(log).(row := Run(out).row)
    ensures !err ==> Run(out).row.written && Run(out).row.addresses == addresses
  {
    var row := w.row(log);
    out := Note(w, log, RowRead(row));
    var token := if row.Some? && row.value.tenant then row.value.token else 0;
    if token == 0 {
      var random := w.random(out);
      if random.None? {
        out := Note(w, out, TokenDrawn(None));
        return true, out;
      }
      token := Fresh(random.value);
      out := Note(w, out, TokenDrawn(Some(token)));
    }
    var ok := w.ok(out);
    out := Note(w, out, RowWritten(token, ok));
    if !ok {
      return true, out;
    }
    err, out := WriteAddresses(w, out, addresses);
  }

  /** Reads every enforcement program back. */
  method VerifyEnforcement(w: World, log: History) returns (err: bool, out: History)
    requires Traced(w, log) && !Faulty(log)
    ensures (err <==> Faulty(out)) && Traced(w, out) && Run(out) == Run(log).(hooks := Run(out).hooks)
    ensures !err ==> Run(out).hooks.deliver == Some(true) && Run(out).hooks.egress
  {
    var there := w.there(log);
    out := Note(w, log, DeliverRead(there));
    if there != Some(true) {
      return true, out;
    }
    there := w.there(out);
    out := Note(w, out, EgressRead(there));
    return there != Some(true), out;
  }

  /** The activation once the maps are open and the mode is known. */
  method ActivateRow(w: World, log: History, active: bool, addresses: seq<nat>) returns (err: bool, out: History)
    requires Traced(w, log) && !Faulty(log) && (active ==> Run(log).link.at.Down?)
    requires Run(log).node == NodeView(active, !active, false, Run(log).node.capable, true)
    requires Run(log) == START.(node := Run(log).node, link := Run(log).link)
    requires active ==> Run(log).node.capable
    ensures (err <==> Faulty(out)) && Traced(w, out) && Ended(Run(out), err) && Run(out).node == Run(log).node
    ensures !err ==> Finished(out) && Run(out).row.written && Run(out).row.addresses == addresses
  {
    var link := w.link(log);
    out := Note(w, log, LinkSeen(link));
    if !link.Found? {
      return true, out;
    }
    err, out := WriteRow(w, out, addresses);
    if err {
      return;
    }
    var ok := w.ok(out);
    out := Note(w, out, ProgramLoaded(ok));
    if !ok {
      if !active {
        err, out := BringUp(w, out);
        return;
      }
      return true, out;
    }
    ok := w.ok(out);
    out := Note(w, out, DeliverAttached(ok));
    if !ok {
      return true, out;
    }
    if active {
      err, out := VerifyEnforcement(w, out);
      if err {
        return;
      }
    }
    err, out := BringUp(w, out);
  }

  /** Nothing looked at the link, let alone took it down. */
  predicate Untouched(v: LinkView) {
    v.at.Unknown? && !v.stuck
  }

  /** The policy maps are there and their state cannot be read. */
  predicate StateUnreadable(w: World) {
    w.maps(Empty).Opened? && w.state(Snoc(Empty, MapsOpened(Opened))).None?
  }

  /** activateTrafficPolicy. It refuses exactly when the log has an answer that
      refuses. A refusal that has not read the mode as off leaves the
      link without an attempt to take it down exactly when the policy state could
      not be read. */
  method Activate(w: World, registered: bool, addresses: seq<nat>) returns (err: bool, log: History)
    ensures Traced(w, log) && Ended(Run(log), err)
    ensures err <==> Faulty(log)
    ensures Run(log).node.blind <==> registered && StateUnreadable(w)
    ensures Run(log).node.blind ==> err && !Run(log).node.off
    ensures err && !Run(log).node.off ==> (Untouched(Run(log).link) <==> Run(log).node.blind)
    ensures !Untouched(Run(log).link) || Run(log).node.blind
    ensures Run(log).node.off || Run(log).node.blind || Run(log).node.active
    ensures !err ==> Finished(log)
    ensures !err && Run(log).node.mapped ==> Run(log).row.addresses == addresses
    ensures !registered && Run(log).node.active ==> err
  {
    if !registered {
      var mode := w.mode(Empty);
      log := Note(w, Empty, ModeRead(mode));
      if mode != Some(false) {
        var e;
        e, log := Quarantine(w, log);
        return true, log;
      }
      err, log := BringUp(w, log);
      return;
    }
    var answer := w.maps(Empty);
    log := Note(w, Empty, MapsOpened(answer));
    if answer.Missing? {
      err, log := BringUp(w, log);
      return;
    }
    if answer.Failed? {
      var e;
      e, log := Quarantine(w, log);
      return true, log;
    }
    var state := w.state(log);
    log := Note(w, log, StateRead(state));
    if state.None? {
      return true, log;
    }
    if state.value.on {
      err, log := Quarantine(w, log);
      if err {
        return;
      }
      if !state.value.capable {
        return true, log;
      }
    }
    err, log := ActivateRow(w, log, state.value.on, addresses);
  }

  /** In a world that answers every call well, whatever the mode, the ADD succeeds,
      with its link up and its host gateway restored. */
  method HealthyAdd(w: World, registered: bool, addresses: seq<nat>) returns (err: bool, log: History)
    requires Well(w)
    ensures !err && Run(log).link.at.Up? && Ready(Run(log))
    ensures log.Snoc? && log.last == GatewayRestored(true)
  {
    err, log := Activate(w, registered, addresses);
    WellNotFaulty(w, log);
  }

  /** There is a refusal without a look at a link that is up all along. */
  method BlindRefusal(addresses: seq<nat>) returns (w: World, err: bool, log: History)
    ensures (forall h :: w.link(h) == Found(true)) && err && Untouched(Run(log).link)
  {
    w := World(
      (h: History) => Some(true), (h: History) => Opened, (h: History) => None, (h: History) => Found(true),
      (h: History) => None, (h: History) => Some(1), (h: History) => Some(true), (h: History) => Unlisted,
      (h: History) => true);
    err, log := Activate(w, true, addresses);
  }
}
