/** The router's lazily opened forwarding gate (cmd/galactic-router/edgegate.go).
    A ghost log keeps every use of the gate table, and the laws are read from the
    log alone. Times are milliseconds of one monotone clock. */
module EdgeGate {
  import opened Common

  const GATE_REOPEN := 1000

  type Address = string
  datatype Prefix = Prefix(address: Address, bits: nat)

  /** What a lookup names: the link's index, the address and the one prefix. */
  datatype Query = Query(index: int, address: Address, prefix: Prefix)

  datatype Event =
    | Opened(at: int, result: Option<nat>)  // None is a failed open
    | Read(table: nat, query: Query, open: Option<bool>)
    | ReadFailed(at: int)
    | TableClosed(table: nat)
    | Reported
    | Shut

  // ---- The laws

  datatype Monitor = Monitor(
    held: Option<nat>,      // the table held
    count: nat,             // how many tables were opened; they are numbered in order
    waitFrom: Option<int>,  // the last opening or read failure
    reported: bool,         // a failure was reported since the last successful opening
    shut: bool)

  const START := Monitor(None, 0, None, false, false)

  function Step(m: Monitor, e: Event): Monitor {
    match e
    case Opened(at, Some(t)) => m.(held := Some(t), count := m.count + 1, waitFrom := Some(at), reported := false)
    case Opened(at, None) => m.(waitFrom := Some(at))
    case Read(_, _, _) => m
    case ReadFailed(at) => m.(waitFrom := Some(at))
    case TableClosed(_) => m.(held := None)
    case Reported => m.(reported := true)
    case Shut => m.(shut := true)
  }

  predicate Waited(m: Monitor, now: int) {
    m.waitFrom.Some? ==> now - m.waitFrom.value >= GATE_REOPEN
  }

  predicate Allowed(m: Monitor, e: Event) {
    match e
    case Opened(at, t) => !m.shut && m.held.None? && Waited(m, at) && (t.Some? ==> t.value == m.count)
    case Read(t, _, _) => !m.shut && m.held == Some(t)
    case ReadFailed(at) => !m.shut && (m.waitFrom.Some? ==> m.waitFrom.value <= at)
    case TableClosed(t) => m.held == Some(t)
    case Reported => !m.reported && !m.shut
    case Shut => true
  }

  ghost function Run(log: Log<Event>): Monitor {
    match log
    case Empty => START
    case Snoc(prev, last) => Step(Run(prev), last)
  }

  ghost predicate Kept(log: Log<Event>) {
    log.Snoc? ==> Kept(log.prev) && Allowed(Run(log.prev), log.last)
  }

  // ---- What the laws mean over a whole history

  ghost function Closings(log: Log<Event>, t: nat): nat {
    if log.Empty? then 0 else Closings(log.prev, t) + if log.last == TableClosed(t) then 1 else 0
  }

  /** The tables opened are numbered, only the latest is ever held, and each is
      closed at most once and not while it is held. */
  lemma {:induction false} ClosedAtMostOnce(log: Log<Event>, t: nat)
    requires Kept(log)
    ensures Closings(log, t) <= 1
    ensures Run(log).held.Some? ==> Run(log).held.value + 1 == Run(log).count
    ensures t >= Run(log).count || Run(log).held == Some(t) ==> Closings(log, t) == 0
  {
    if log.Snoc? {
      ClosedAtMostOnce(log.prev, t);
    }
  }

  predicate At(e: Event, at: int) {
    (e.Opened? && e.at == at) || (e.ReadFailed? && e.at == at)
  }

  lemma {:induction false} WaitsFrom(log: Log<Event>, p: Log<Event>, at: int)
    requires Kept(log) && PrefixOf(p, log) && p.Snoc? && At(p.last, at)
    ensures Run(log).waitFrom.Some? && at <= Run(log).waitFrom.value
  {
    if p != log {
      WaitsFrom(log.prev, p, at);
    }
  }

  /** Any opening comes at least GATE_REOPEN after every earlier opening and every
      earlier read failure. */
  lemma OpeningsSpaced(log: Log<Event>, later: Log<Event>, earlier: Log<Event>, at: int)
    requires Kept(log) && PrefixOf(later, log) && later.Snoc? && later.last.Opened?
    requires PrefixOf(earlier, later.prev) && earlier.Snoc? && At(earlier.last, at)
    ensures later.last.at - at >= GATE_REOPEN
  {
    KeptPrefix(log, later);
    WaitsFrom(later.prev, earlier, at);
  }

  lemma {:induction false} KeptPrefix(log: Log<Event>, p: Log<Event>)
    requires Kept(log) && PrefixOf(p, log)
    ensures Kept(p)
  {
    if p != log {
      KeptPrefix(log.prev, p);
    }
  }

  lemma {:induction false} StaysShut(log: Log<Event>, p: Log<Event>)
    requires Kept(log) && PrefixOf(p, log) && p.Snoc? && p.last.Shut?
    ensures Run(log).shut
  {
    if p != log {
      StaysShut(log.prev, p);
    }
  }

  /** Nothing is opened or read after Close. */
  lemma NothingAfterShut(log: Log<Event>, later: Log<Event>, p: Log<Event>)
    requires Kept(log) && PrefixOf(later, log) && later.Snoc?
    requires PrefixOf(p, later.prev) && p.Snoc? && p.last.Shut?
    ensures later.last.TableClosed? || later.last.Shut?
  {
    KeptPrefix(log, later);
    StaysShut(later.prev, p);
  }

  // ---- The gate

  /** An advertisement's prefixes and the two annotations it is judged by. */
  datatype Advertisement = Advertisement(prefixes: seq<string>, address: string, link: string)

  /** The parsers and the link lookup; None is an error. */
  datatype Env = Env(
    parsePrefix: string -> Option<Prefix>, masked: Prefix -> Prefix,
    parseAddress: string -> Option<Address>, linkIndex: string -> Option<int>)

  /** The one query an advertisement stands for. */
  function Resolve(env: Env, adv: Advertisement): Option<Query> {
    if |adv.prefixes| != 1 then None
    else
      var prefix := env.parsePrefix(adv.prefixes[0]);
      if prefix.None? || prefix.value != env.masked(prefix.value) then None
      else
        var address := env.parseAddress(adv.address);
        if address.None? || adv.link == "" then None
        else
          var index := env.linkIndex(adv.link);
          if index.None? || index.value <= 0 then None
          else Some(Query(index.value, address.value, prefix.value))
  }

  /** The advertisement has one prefix, which is its own mask's, an address and a
      link with an index, and the query asks for just those. */
  ghost predicate StandsFor(env: Env, adv: Advertisement, q: Query) {
    && (exists x :: adv.prefixes == [x] && env.parsePrefix(x) == Some(q.prefix)) && env.masked(q.prefix) == q.prefix
    && env.parseAddress(adv.address) == Some(q.address)
    && adv.link != "" && env.linkIndex(adv.link) == Some(q.index) && q.index > 0
  }

  lemma ResolveExactly(env: Env, adv: Advertisement, q: Query)
    ensures Resolve(env, adv) == Some(q) <==> StandsFor(env, adv, q)
  {
    assert |adv.prefixes| == 1 ==> adv.prefixes == [adv.prefixes[0]];
  }

  class Gate {
    var table: Option<nat>
    var count: nat    // tables are numbered as they are opened
    var lastOpen: Option<int>
    var failed: bool
    var closed: bool
    ghost var log: Log<Event>

    ghost predicate Valid()
      reads this
    {
      && Kept(log)
      && Run(log) == Monitor(table, count, lastOpen, failed, closed)
    }

    constructor ()
      ensures Valid() && !closed && log == Empty
    {
      table, count, lastOpen, failed, closed, log := None, 0, None, false, false, Empty;
    }

    method Unavailable()
      requires Valid() && !closed
      modifies this`failed, this`log
      ensures Valid() && failed && Run(log) == old(Run(log)).(reported := true)
      ensures log == if old(failed) then old(log) else Snoc(old(log), Reported)
    {
      if !failed {
        failed, log := true, Snoc(log, Reported);
      }
    }

    /** Opens the table if there is none and the wait is over; opens tells whether
        the open succeeds. */
    method Acquire(now: int, opens: bool) returns (ready: bool)
      requires Valid() && !closed && (lastOpen.Some? ==> lastOpen.value <= now)
      modifies this`table, this`count, this`lastOpen, this`failed, this`log
      ensures Valid() && (lastOpen.Some? ==> lastOpen.value <= now)
      ensures ready <==> table.Some?
      ensures table.Some? <==> old(table).Some? || (opens && Waited(old(Run(log)), now))
      ensures old(table).Some? ==> table == old(table) && log == old(log)
    {
      if table.None? {
        if lastOpen.None? || now - lastOpen.value >= GATE_REOPEN {
          lastOpen := Some(now);
          if !opens {
            log := Snoc(log, Opened(now, None));
            Unavailable();
            return false;
          }
          log := Snoc(log, Opened(now, Some(count)));
          table, count, failed := Some(count), count + 1, false;
        }
      }
      ready := table.Some?;
    }

    /** Whether the advertisement's gate is open: opens, answer and the two
        readings of the clock stand for the table and the time. Open is reported
        only from a successful read of the table held, for the one prefix. */
    method Open(env: Env, adv: Advertisement, now: int, opens: bool, answer: Option<bool>, after: int)
      returns (open: bool)
      requires Valid() && now <= after && (lastOpen.Some? ==> lastOpen.value <= now)
      modifies this`table, this`count, this`lastOpen, this`failed, this`log
      ensures Valid() && (lastOpen.Some? ==> lastOpen.value <= after)
      ensures open <==>
                && Resolve(env, adv).Some? && !closed && answer == Some(true)
                && (old(table).Some? || (opens && Waited(old(Run(log)), now)))
      ensures open ==> table.Some? && log.Snoc? && log.last == Read(table.value, Resolve(env, adv).value, Some(true))
      ensures open ==> StandsFor(env, adv, log.last.query)
      ensures closed || Resolve(env, adv).None? ==> log == old(log)
    {
      var query := Resolve(env, adv);
      if query.None? || closed {
        return false;
      }
      ResolveExactly(env, adv, query.value);
      var ready := Acquire(now, opens);
      if !ready {
        return false;
      }
      log := Snoc(log, Read(table.value, query.value, answer));
      assert Valid();
      if answer.None? {
        log := Snoc(log, TableClosed(table.value));
        assert Kept(log) && Run(log) == Monitor(None, count, lastOpen, failed, closed);
        table, lastOpen := None, Some(after);
        log := Snoc(log, ReadFailed(after));
        Unavailable();
        return false;
      }
      return answer.value;
    }

    method Close()
      requires Valid()
      modifies this`table, this`closed, this`log
      ensures Valid() && closed && table.None?
    {
      closed, log := true, Snoc(log, Shut);
      if table.Some? {
        log := Snoc(log, TableClosed(table.value));
        table := None;
      }
    }
  }
}
