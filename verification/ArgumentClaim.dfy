/** claimArgument (internal/cnibgp/argument.go) run against an API server on
    which a writer that takes no lock may act between any two calls, and the
    retry loop of publishBGPState around it (internal/cnibgp/bgp.go). */
module ArgumentClaim {
  import opened Common
  import opened Instances

  const MAX_REALLOCATIONS := 3
  const MAX_RETRIES := 2

  /** What a write meets. An unanswered one was applied; both it and a refused one
      return an error. */
  datatype Put = Created | Updated | Refused | Unanswered
  datatype Siblings = NoSiblings | SomeSiblings | SiblingsUnknown

  /** What the calls of one claim meet, by call number. Nothing ties one answer
      to the next, so every behaviour of other writers is covered. */
  datatype World = World(locked: bool,
                         lists: nat -> Option<seq<Item>>,
                         puts: nat -> Put,
                         siblings: nat -> Siblings,
                         releases: nat -> bool)
  {
    ghost predicate Valid() {
      forall i: nat | lists(i).Some? :: UniqueNames(lists(i).value)
    }
  }

  predicate Fails(put: Put) {
    put.Refused? || put.Unanswered?
  }

  /** The effects of a claim, in order. */
  datatype Event =
    | Listed(api: View)
    | Wrote(arg: int)
    | Lost(arg: int)            // applied, and the answer lost
    | Asked(noSiblings: bool)
    | Released(arg: int)
    | ReleaseFailed(arg: int)

  predicate IsWrite(e: Event) {
    e.Wrote? || e.Lost?
  }

  datatype ClaimError =
    | LockUnavailable
    | ListError
    | NoFreeArgument
    | PutError
    | SiblingError
    | ReusedCollision(holder: string)
    | StillCollides(holder: string)
    | ReleaseError

  /** The Arguments the instance was written with, in order. */
  function Writes(t: seq<Event>): (w: seq<int>) {
    if t == [] then [] else
      var rest := Writes(t[..|t| - 1]);
      if IsWrite(t[|t| - 1]) then rest + [t[|t| - 1].arg] else rest
  }

  /** The Arguments released, in order. */
  function Releases(t: seq<Event>): (w: seq<int>) {
    if t == [] then [] else
      var rest := Releases(t[..|t| - 1]);
      if t[|t| - 1].Released? then rest + [t[|t| - 1].arg] else rest
  }

  /** What the Lists showed, in order. */
  function Views(t: seq<Event>): (v: seq<View>) {
    if t == [] then [] else
      var rest := Views(t[..|t| - 1]);
      if t[|t| - 1].Listed? then rest + [t[|t| - 1].api] else rest
  }

  lemma Snoc(t: seq<Event>, e: Event)
    ensures Views(t + [e]) == Views(t) + (if e.Listed? then [e.api] else [])
    ensures Writes(t + [e]) == Writes(t) + (if IsWrite(e) then [e.arg] else [])
    ensures Releases(t + [e]) == Releases(t) + (if e.Released? then [e.arg] else [])
  {
    assert (t + [e])[..|t|] == t;
  }

  /** The Arguments moves left, in order. */
  function Left(t: seq<Event>): seq<int> {
    if Writes(t) == [] then [] else Writes(t)[..|Writes(t)| - 1]
  }

  /** The last write was applied and not answered. */
  predicate EndsLost(t: seq<Event>) {
    t != [] && t[|t| - 1].Lost?
  }

  /** And was a move's. */
  predicate LostMove(t: seq<Event>) {
    EndsLost(t) && |Writes(t)| > 1
  }

  predicate FailedRelease(t: seq<Event>) {
    t != [] && t[|t| - 1].ReleaseFailed?
  }

  /** The Argument left whose release was not reached, or failed. */
  function Stuck(t: seq<Event>): seq<int> {
    if FailedRelease(t) then [t[|t| - 1].arg]
    else if LostMove(t) then [Writes(t)[|Writes(t)| - 2]]
    else []
  }

  /** Nothing failed so far that ends a claim. */
  predicate Going(t: seq<Event>) {
    forall e | e in t :: !e.Lost? && !e.ReleaseFailed?
  }

  /** Every write follows at once the List it was chosen from: the first keeps
      the instance's own value or takes the lowest free one, and each later
      one takes the lowest free one. */
  ghost predicate Chosen(t: seq<Event>, router: string, self: string) {
    forall i | 0 <= i < |t| :: ChosenAt(t, i, router, self)
  }

  ghost predicate ChosenAt(t: seq<Event>, i: nat, router: string, self: string)
    requires i < |t|
  {
    IsWrite(t[i]) ==>
      && 0 < i && t[i - 1].Listed?
      && if i == 1 then Allocates(t[0].api, router, self, t[1].arg)
         else IsLowestFree(t[i - 1].api, router, self, t[i].arg)
  }

  /** A value is left, and released, only after a List showed another holder of it. */
  ghost predicate Justified(t: seq<Event>, router: string, self: string) {
    forall i | 0 <= i < |t| :: JustifiedAt(t, i, router, self)
  }

  ghost predicate JustifiedAt(t: seq<Event>, i: nat, router: string, self: string)
    requires i < |t|
  {
    && (t[i].Released? || t[i].ReleaseFailed? ==> SawHolder(t, i, router, self, t[i].arg))
    && (t[i].Lost? && Writes(t[..i]) != [] ==>
          SawHolder(t, i, router, self, Writes(t[..i])[|Writes(t[..i])| - 1]))
  }

  ghost predicate SawHolder(t: seq<Event>, i: nat, router: string, self: string, arg: int)
    requires i <= |t|
  {
    exists j | 0 <= j < i :: ListsHolder(t[j], router, self, arg)
  }

  ghost predicate ListsHolder(e: Event, router: string, self: string, arg: int) {
    e.Listed? && HeldByOther(e.api, router, self, arg)
  }

  ghost predicate Consistent(t: seq<Event>, router: string, self: string) {
    && Chosen(t, router, self)
    && Justified(t, router, self)
    && Left(t) == Releases(t) + Stuck(t)
  }

  /** The variables of a claim that has written its instance. */
  datatype Progress = Progress(vrfID: int, created: bool, ours: bool, moves: nat,
                               lists: nat, sibs: nat, trace: seq<Event>)

  ghost predicate Running(p: Progress, router: string, self: string, createdBefore: bool) {
    && Moving(p, router, self, createdBefore)
    && (p.moves == 0 ==> |p.trace| == 2)
  }

  ghost predicate Moving(p: Progress, router: string, self: string, createdBefore: bool) {
    && p.moves <= MAX_REALLOCATIONS
    && Consistent(p.trace, router, self)
    && Going(p.trace) && p.lists > 0
    && |p.trace| >= 2 && IsWrite(p.trace[1]) && |Writes(p.trace)| == p.moves + 1 && Writes(p.trace)[p.moves] == p.vrfID
    && (p.ours ==> p.created || (createdBefore && Asked(true) in p.trace))
    && (p.moves > 0 ==> p.ours)
    && (p.created ==> p.ours && Asked(true) !in p.trace)
  }

  /** What a claim guarantees of whatever it did. */
  ghost predicate Accounted(p: Progress, err: Option<ClaimError>, router: string, self: string, createdBefore: bool) {
    // What was left is what was released, in order, and then what is stuck.
    && Consistent(p.trace, router, self)
    && (p.trace != [] ==> Going(p.trace[..|p.trace| - 1]))
    && (err.None? ==> Going(p.trace))
    && |Writes(p.trace)| <= MAX_REALLOCATIONS + 1
    && (Writes(p.trace) != [] ==> |p.trace| > 1 && IsWrite(p.trace[1]))
    // Success: the last call listed no other holder of the value last written.
    && (err.None? ==> |Writes(p.trace)| > 0 && Writes(p.trace)[|Writes(p.trace)| - 1] == p.vrfID)
    && (err.None? ==> p.trace != [] && ListsNoHolder(p.trace[|p.trace| - 1], router, self, p.vrfID))
    // Only an instance of this ADD is moved, and one an earlier attempt made only without siblings.
    && (|Writes(p.trace)| > 1 ==> p.created || (createdBefore && Asked(true) in p.trace))
    && (p.created ==> Asked(true) !in p.trace)
    // A reused instance whose value collides is refused, not moved.
    && (err.Some? && err.value.ReusedCollision? ==>
          && Writes(p.trace) == [p.vrfID] && !p.created
          && |p.trace| > 2 && ListsHolder(p.trace[2], router, self, p.vrfID)
          && (createdBefore ==> Asked(false) in p.trace))
    && (err.Some? && err.value.StillCollides? ==> |Writes(p.trace)| == MAX_REALLOCATIONS + 1)
  }

  ghost predicate ListsNoHolder(e: Event, router: string, self: string, arg: int) {
    e.Listed? && !HeldByOther(e.api, router, self, arg)
  }

  // ---- What a trace owes to the world

  ghost predicate Shown(w: World, api: View, first: bool) {
    exists j: nat :: (first <==> j == 0) && w.lists(j).Some? && api == ViewOf(w.lists(j).value)
  }

  ghost predicate Answered(w: World, noSiblings: bool) {
    exists j: nat :: w.siblings(j) == if noSiblings then NoSiblings else SomeSiblings
  }

  ghost predicate FromWorld(w: World, t: seq<Event>, i: nat)
    requires i < |t|
  {
    && (t[i].Listed? ==> Shown(w, t[i].api, i == 0))
    && (t[i].Asked? ==> Answered(w, t[i].noSiblings))
  }

  /** The writes that were answered. */
  function Acknowledged(t: seq<Event>): int {
    |Writes(t)| - if EndsLost(t) then 1 else 0
  }

  ghost predicate Follows(w: World, p: Progress) {
    && (forall i | 0 <= i < |p.trace| :: FromWorld(w, p.trace, i))
    && (forall k: nat | k < Acknowledged(p.trace) :: !Fails(w.puts(k)))
    && (p.created <==> Acknowledged(p.trace) > 0 && w.puts(0).Created?)
  }

  /** What an error comes from. */
  ghost predicate Cause(w: World, t: seq<Event>, e: ClaimError, router: string, self: string) {
    match e
    case LockUnavailable => !w.locked
    case ListError => exists j: nat :: w.lists(j).None?
    case NoFreeArgument => exists x | x in t :: x.Listed? && Exhausted(x.api, router, self)
    case PutError => if EndsLost(t) then w.puts(|Writes(t)| - 1).Unanswered? else w.puts(|Writes(t)|).Refused?
    case SiblingError => exists j: nat :: w.siblings(j).SiblingsUnknown?
    case ReleaseError => FailedRelease(t) && exists j: nat :: !w.releases(j)
    case ReusedCollision(_) => true
    case StillCollides(_) => true
  }

  /** The trace and the result come from the world. */
  ghost predicate Explained(w: World, p: Progress, err: Option<ClaimError>, router: string, self: string) {
    && Follows(w, p)
    && (EndsLost(p.trace) ==> err == Some(PutError))
    && (FailedRelease(p.trace) ==> err == Some(ReleaseError))
    && (err.Some? ==> Cause(w, p.trace, err.value, router, self))
  }

  /** The Lists are the world's, in order, and each value left was found held by
      another in the List after its write: a claim lists once to allocate, once
      after each write, and once more to move. */
  ghost predicate Tallied(w: World, p: Progress, router: string, self: string) {
    && |Views(p.trace)| == p.lists
    && (forall j: nat | j < p.lists :: w.lists(j).Some? && Views(p.trace)[j] == ViewOf(w.lists(j).value))
    && forall k | 0 <= k < |Writes(p.trace)| - 1 ::
         2 * k + 1 < p.lists && HeldByOther(Views(p.trace)[2 * k + 1], router, self, Writes(p.trace)[k])
  }

  /** The last List, made after the last write, showed holder with its value. */
  ghost predicate Names(p: Progress, router: string, self: string, holder: string) {
    && holder != self && Writes(p.trace) != [] && Writes(p.trace)[|Writes(p.trace)| - 1] == p.vrfID
    && |Views(p.trace)| == 2 * |Writes(p.trace)|
    && HoldsArgument(Views(p.trace)[|Views(p.trace)| - 1], router, holder, p.vrfID)
  }

  /** A collision is refused, or given up on, only when seen just then, and the one
      seen is named; success comes from a List made after the last write. */
  ghost predicate Seen(p: Progress, err: Option<ClaimError>, router: string, self: string) {
    match err
    case None => |Views(p.trace)| == 2 * |Writes(p.trace)|
    case Some(ReusedCollision(holder)) => Names(p, router, self, holder)
    case Some(StillCollides(holder)) => Names(p, router, self, holder)
    case Some(_) => true
  }

  ghost predicate Ended(w: World, p: Progress, err: Option<ClaimError>, router: string, self: string,
                        createdBefore: bool)
  {
    && Accounted(p, err, router, self, createdBefore) && Explained(w, p, err, router, self)
    && Tallied(w, p, router, self) && Seen(p, err, router, self)
  }

  /** A claim that has written its instance. */
  ghost predicate Underway(w: World, p: Progress, router: string, self: string, createdBefore: bool) {
    Moving(p, router, self, createdBefore) && Follows(w, p) && Tallied(w, p, router, self)
  }

  /** One that is about to look for a collision. */
  ghost predicate AtCheck(w: World, p: Progress, router: string, self: string, createdBefore: bool) {
    && Running(p, router, self, createdBefore) && Follows(w, p) && Tallied(w, p, router, self)
    && p.lists == 2 * p.moves + 1
  }

  /** Neither success nor a collision can be reported there, before that List. */
  lemma ReportsAfterListing(w: World, p: Progress, err: Option<ClaimError>, router: string, self: string,
                            createdBefore: bool)
    requires AtCheck(w, p, router, self, createdBefore) && Ended(w, p, err, router, self, createdBefore)
    ensures err.Some? && !err.value.ReusedCollision? && !err.value.StillCollides?
  {
    assert |Views(p.trace)| == 2 * p.moves + 1;
  }

  /** One that has found another holder. */
  ghost predicate Contested(p: Progress, router: string, self: string) {
    2 * p.moves + 1 < |Views(p.trace)| && HeldByOther(Views(p.trace)[2 * p.moves + 1], router, self, p.vrfID)
  }

  lemma TallyList(w: World, p: Progress, api: View, router: string, self: string)
    requires Tallied(w, p, router, self) && w.lists(p.lists).Some? && api == ViewOf(w.lists(p.lists).value)
    ensures Tallied(w, p.(lists := p.lists + 1, trace := p.trace + [Listed(api)]), router, self)
  {
    Snoc(p.trace, Listed(api));
  }

  lemma TallyAsk(w: World, p: Progress, b: bool, router: string, self: string)
    requires Tallied(w, p, router, self)
    ensures Tallied(w, p.(trace := p.trace + [Asked(b)]), router, self)
    ensures Views(p.trace + [Asked(b)]) == Views(p.trace)
  {
    Snoc(p.trace, Asked(b));
  }

  lemma TallyWrite(w: World, p: Progress, e: Event, router: string, self: string)
    requires Tallied(w, p, router, self) && IsWrite(e) && Contested(p, router, self)
    requires |Writes(p.trace)| == p.moves + 1 && Writes(p.trace)[p.moves] == p.vrfID
    ensures Tallied(w, p.(trace := p.trace + [e]), router, self)
    ensures Views(p.trace + [e]) == Views(p.trace)
  {
    Snoc(p.trace, e);
  }

  lemma TallyMove(w: World, p: Progress, next: int, e: Event, router: string, self: string)
    requires Tallied(w, p, router, self) && Contested(p, router, self) && (e.Released? || e.ReleaseFailed?)
    requires |Writes(p.trace)| == p.moves + 1 && Writes(p.trace)[p.moves] == p.vrfID
    ensures Tallied(w, p.(vrfID := next, moves := p.moves + 1, trace := p.trace + [Wrote(next), e]), router, self)
  {
    TallyWrite(w, p, Wrote(next), router, self);
    Snoc(p.trace + [Wrote(next)], e);
    assert p.trace + [Wrote(next)] + [e] == p.trace + [Wrote(next), e];
  }

  /** Appending a List or an answer that the world gave. */
  lemma FollowsQuiet(w: World, p: Progress, e: Event)
    requires Follows(w, p) && Going(p.trace) && (e.Listed? || e.Asked?)
    requires e.Listed? ==> Shown(w, e.api, p.trace == [])
    requires e.Asked? ==> Answered(w, e.noSiblings)
    ensures Follows(w, p.(trace := p.trace + [e]))
  {
    Snoc(p.trace, e);
    var u := p.trace + [e];
    forall i | 0 <= i < |u|
      ensures FromWorld(w, u, i)
    {
      assert i < |p.trace| ==> FromWorld(w, p.trace, i);
    }
  }

  /** Appending writes and releases that were answered, or the last that was not. */
  lemma FollowsEffects(w: World, t: seq<Event>, u: seq<Event>)
    requires forall i | 0 <= i < |t| :: FromWorld(w, t, i)
    requires forall e | e in u :: !e.Listed? && !e.Asked?
    ensures forall i | 0 <= i < |t + u| :: FromWorld(w, t + u, i)
  {
    forall i | 0 <= i < |t + u|
      ensures FromWorld(w, t + u, i)
    {
      assert (t + u)[i] in t + u;
      assert i < |t| ==> FromWorld(w, t, i);
      assert i >= |t| ==> (t + u)[i] == u[i - |t|];
    }
  }

  lemma SnocQuiet(t: seq<Event>, e: Event, router: string, self: string)
    requires Consistent(t, router, self) && Going(t)
    requires e.Listed? || e.Asked?
    ensures Consistent(t + [e], router, self) && Going(t + [e])
    ensures Writes(t + [e]) == Writes(t)
  {
    Snoc(t, e);
    Kept(t, [e], router, self);
  }

  /** Appending events leaves what held of the earlier ones. */
  lemma Kept(t: seq<Event>, u: seq<Event>, router: string, self: string)
    requires Chosen(t, router, self) && Justified(t, router, self)
    ensures forall i | 0 <= i < |t| :: ChosenAt(t + u, i, router, self) && JustifiedAt(t + u, i, router, self)
  {
    forall i | 0 <= i < |t|
      ensures ChosenAt(t + u, i, router, self) && JustifiedAt(t + u, i, router, self)
    {
      assert ChosenAt(t, i, router, self) && JustifiedAt(t, i, router, self);
      assert forall j | 0 <= j <= i :: (t + u)[j] == t[j];
      assert (t + u)[..i] == t[..i];
    }
  }

  /** A claim may stop with a plain error at any point between moves. */
  lemma Stops(w: World, p: Progress, id: int, e: ClaimError, router: string, self: string, createdBefore: bool)
    requires Underway(w, p, router, self, createdBefore) && Cause(w, p.trace, e, router, self)
    requires e.ListError? || e.NoFreeArgument? || e.PutError? || e.SiblingError?
    ensures Ended(w, p.(vrfID := id), Some(e), router, self, createdBefore)
  {
  }

  /** Or with its value, once a List showed no other holder. */
  lemma StopsClaimed(w: World, p: Progress, router: string, self: string, createdBefore: bool)
    requires Underway(w, p, router, self, createdBefore)
    requires ListsNoHolder(p.trace[|p.trace| - 1], router, self, p.vrfID) && p.lists == 2 * p.moves + 2
    ensures Ended(w, p, None, router, self, createdBefore)
  {
  }

  /** Or refusing to move an instance that is not this ADD's. */
  lemma StopsReused(w: World, p: Progress, holder: string, router: string, self: string, createdBefore: bool)
    requires Underway(w, p, router, self, createdBefore) && p.moves == 0 && !p.created
    requires |p.trace| > 2 && ListsHolder(p.trace[2], router, self, p.vrfID) && Names(p, router, self, holder)
    requires createdBefore ==> Asked(false) in p.trace
    ensures Ended(w, p, Some(ReusedCollision(holder)), router, self, createdBefore)
  {
  }

  /** Or giving up after the last move. */
  lemma StopsColliding(w: World, p: Progress, holder: string, router: string, self: string, createdBefore: bool)
    requires Underway(w, p, router, self, createdBefore) && p.moves == MAX_REALLOCATIONS
    requires Names(p, router, self, holder)
    ensures Ended(w, p, Some(StillCollides(holder)), router, self, createdBefore)
  {
  }

  /** An instance an earlier attempt created is ours while no sibling uses it. */
  method AskSiblings(w: World, routerName: string, vrfName: string, createdBefore: bool, p: Progress)
    returns (q: Progress, unknown: bool)
    requires Underway(w, p, routerName, vrfName, createdBefore)
    ensures Underway(w, q, routerName, vrfName, createdBefore) && p.trace <= q.trace
    ensures q.lists == p.lists && Views(q.trace) == Views(p.trace) && Writes(q.trace) == Writes(p.trace)
    ensures unknown ==> exists j: nat :: w.siblings(j).SiblingsUnknown?
    ensures q.vrfID == p.vrfID && q.moves == p.moves && q.created == p.created
    ensures !unknown && !q.ours ==> !q.created && q.moves == 0 && (createdBefore ==> Asked(false) in q.trace)
  {
    if p.ours || !createdBefore {
      return p, false;
    }
    var others := w.siblings(p.sibs);
    if others.SiblingsUnknown? {
      return p, true;
    }
    SnocQuiet(p.trace, Asked(others.NoSiblings?), routerName, vrfName);
    FollowsQuiet(w, p, Asked(others.NoSiblings?));
    TallyAsk(w, p, others.NoSiblings?, routerName, vrfName);
    q := p.(ours := others.NoSiblings?, sibs := p.sibs + 1, trace := p.trace + [Asked(others.NoSiblings?)]);
    return q, false;
  }

  /** The next List. */
  lemma AnotherList(w: World, p: Progress, api: View, router: string, self: string, createdBefore: bool)
    requires Underway(w, p, router, self, createdBefore)
    requires w.lists(p.lists).Some? && api == ViewOf(w.lists(p.lists).value)
    ensures var q := p.(lists := p.lists + 1, trace := p.trace + [Listed(api)]);
            Underway(w, q, router, self, createdBefore) && Views(q.trace) == Views(p.trace) + [api]
  {
    SnocQuiet(p.trace, Listed(api), router, self);
    Snoc(p.trace, Listed(api));
    TallyList(w, p, api, router, self);
    assert Shown(w, api, false);
    FollowsQuiet(w, p, Listed(api));
  }

  /** One pass of the collision loop: check, and move when the instance may be
      moved. done says the claim is over, with err as its result. */
  method Pass(w: World, routerName: string, vrfName: string, createdBefore: bool, p: Progress)
    returns (q: Progress, done: bool, err: Option<ClaimError>)
    requires w.Valid()
    requires AtCheck(w, p, routerName, vrfName, createdBefore)
    ensures done ==> Ended(w, q, err, routerName, vrfName, createdBefore)
    ensures !done ==> AtCheck(w, q, routerName, vrfName, createdBefore) && q.moves == p.moves + 1
  {
    q := p;
    if w.lists(p.lists).None? {
      Stops(w, p, p.vrfID, ListError, routerName, vrfName, createdBefore);
      return q, true, Some(ListError);
    }
    var api := ViewOf(w.lists(p.lists).value);
    var holder := ArgumentHolder(w.lists(p.lists).value, routerName, vrfName, p.vrfID);
    AnotherList(w, p, api, routerName, vrfName, createdBefore);
    q := q.(lists := q.lists + 1, trace := q.trace + [Listed(api)]);
    if holder.None? {
      StopsClaimed(w, q, routerName, vrfName, createdBefore);
      return q, true, None;
    }
    Found(p, q, api, holder.value, routerName, vrfName);
    q, done, err := Contend(w, routerName, vrfName, createdBefore, q, holder.value, |p.trace|);
  }

  lemma Found(p: Progress, q: Progress, api: View, holder: string, router: string, self: string)
    requires Views(q.trace) == Views(p.trace) + [api] && q.trace == p.trace + [Listed(api)]
    requires |Writes(q.trace)| == q.moves + 1 && Writes(q.trace)[q.moves] == q.vrfID
    requires |Views(p.trace)| == 2 * q.moves + 1
    requires holder != self && HoldsArgument(api, router, holder, q.vrfID)
    ensures Names(q, router, self, holder) && ListsHolder(q.trace[|p.trace|], router, self, q.vrfID)
  {
  }

  /** What follows when the List at index check showed holder. */
  method Contend(w: World, routerName: string, vrfName: string, createdBefore: bool, p: Progress, holder: string,
                 ghost check: nat)
    returns (q: Progress, done: bool, err: Option<ClaimError>)
    requires w.Valid()
    requires Underway(w, p, routerName, vrfName, createdBefore)
    requires check < |p.trace| && ListsHolder(p.trace[check], routerName, vrfName, p.vrfID)
    requires (p.moves == 0 ==> check == 2) && Names(p, routerName, vrfName, holder)
    ensures done ==> Ended(w, q, err, routerName, vrfName, createdBefore)
    ensures !done ==> AtCheck(w, q, routerName, vrfName, createdBefore) && q.moves == p.moves + 1
  {
    var unknown;
    q, unknown := AskSiblings(w, routerName, vrfName, createdBefore, p);
    if unknown {
      Stops(w, q, q.vrfID, SiblingError, routerName, vrfName, createdBefore);
      return q, true, Some(SiblingError);
    }
    StillNamed(p, q, check, holder, routerName, vrfName);
    q, done, err := Settle(w, routerName, vrfName, createdBefore, q, holder, check);
  }

  lemma StillNamed(p: Progress, q: Progress, check: nat, holder: string, router: string, self: string)
    requires Names(p, router, self, holder) && check < |p.trace| && p.trace <= q.trace && q.vrfID == p.vrfID
    requires Views(q.trace) == Views(p.trace) && Writes(q.trace) == Writes(p.trace)
    ensures Names(q, router, self, holder) && q.trace[check] == p.trace[check]
  {
  }

  /** With the siblings known: refused, given up, or moved. */
  method Settle(w: World, routerName: string, vrfName: string, createdBefore: bool, p: Progress, holder: string,
                ghost check: nat)
    returns (q: Progress, done: bool, err: Option<ClaimError>)
    requires w.Valid()
    requires Underway(w, p, routerName, vrfName, createdBefore) && Names(p, routerName, vrfName, holder)
    requires check < |p.trace| && ListsHolder(p.trace[check], routerName, vrfName, p.vrfID)
    requires p.moves == 0 ==> check == 2
    requires !p.ours ==> !p.created && p.moves == 0 && (createdBefore ==> Asked(false) in p.trace)
    ensures done ==> Ended(w, q, err, routerName, vrfName, createdBefore)
    ensures !done ==> AtCheck(w, q, routerName, vrfName, createdBefore) && q.moves == p.moves + 1
  {
    if !p.ours {
      StopsReused(w, p, holder, routerName, vrfName, createdBefore);
      return p, true, Some(ReusedCollision(holder));
    }
    if p.moves == MAX_REALLOCATIONS {
      StopsColliding(w, p, holder, routerName, vrfName, createdBefore);
      return p, true, Some(StillCollides(holder));
    }
    NamedIsContested(p, routerName, vrfName, holder);
    q, done, err := Move(w, routerName, vrfName, createdBefore, p, check);
  }

  lemma NamedIsContested(p: Progress, router: string, self: string, holder: string)
    requires Names(p, router, self, holder) && |Writes(p.trace)| == p.moves + 1
    ensures Contested(p, router, self)
  {
  }

  /** Moves the instance to the lowest free Argument and releases the one it
      leaves, which the List at index check saw held by another. An error of the
      write ends the claim before the release, also when the write was applied. */
  method Move(w: World, routerName: string, vrfName: string, createdBefore: bool, p: Progress, ghost check: nat)
    returns (q: Progress, done: bool, err: Option<ClaimError>)
    requires w.Valid()
    requires p.moves < MAX_REALLOCATIONS && p.ours && p.lists == 2 * p.moves + 2 && Contested(p, routerName, vrfName)
    requires Underway(w, p, routerName, vrfName, createdBefore)
    requires check < |p.trace| && ListsHolder(p.trace[check], routerName, vrfName, p.vrfID)
    ensures done ==> Ended(w, q, err, routerName, vrfName, createdBefore)
    ensures !done ==> AtCheck(w, q, routerName, vrfName, createdBefore) && q.moves == p.moves + 1
  {
    if w.lists(p.lists).None? {
      Stops(w, p, p.vrfID, ListError, routerName, vrfName, createdBefore);
      return p, true, Some(ListError);
    }
    var api := ViewOf(w.lists(p.lists).value);
    var next := LowestFreeArgument(w.lists(p.lists).value, routerName, vrfName);
    AnotherList(w, p, api, routerName, vrfName, createdBefore);
    q := p.(lists := p.lists + 1, trace := p.trace + [Listed(api)]);
    ContestedStays(p, q, api, routerName, vrfName);
    if next.None? {
      StopsFull(w, q, api, routerName, vrfName, createdBefore);
      return q, true, Some(NoFreeArgument);
    }
    q, done, err := WriteMove(w, routerName, vrfName, createdBefore, q, next.value, check);
  }

  lemma ContestedStays(p: Progress, q: Progress, api: View, router: string, self: string)
    requires Contested(p, router, self) && Views(q.trace) == Views(p.trace) + [api]
    requires q.moves == p.moves && q.vrfID == p.vrfID
    ensures Contested(q, router, self)
  {
  }

  /** Nothing is free in the last List. */
  lemma StopsFull(w: World, p: Progress, api: View, router: string, self: string, createdBefore: bool)
    requires Underway(w, p, router, self, createdBefore) && Exhausted(api, router, self)
    requires p.trace[|p.trace| - 1] == Listed(api)
    ensures Ended(w, p, Some(NoFreeArgument), router, self, createdBefore)
  {
    assert Listed(api) in p.trace;
    Stops(w, p, p.vrfID, NoFreeArgument, router, self, createdBefore);
  }

  /** The write of a move and the release after it. */
  method WriteMove(w: World, routerName: string, vrfName: string, createdBefore: bool, p: Progress, next: int,
                   ghost check: nat)
    returns (q: Progress, done: bool, err: Option<ClaimError>)
    requires Underway(w, p, routerName, vrfName, createdBefore) && p.ours && p.moves < MAX_REALLOCATIONS
    requires p.trace[|p.trace| - 1].Listed? && IsLowestFree(p.trace[|p.trace| - 1].api, routerName, vrfName, next)
    requires p.lists == 2 * p.moves + 3 && Contested(p, routerName, vrfName)
    requires check < |p.trace| && ListsHolder(p.trace[check], routerName, vrfName, p.vrfID)
    ensures done ==> Ended(w, q, err, routerName, vrfName, createdBefore)
    ensures done <==> Fails(w.puts(p.moves + 1)) || !w.releases(p.moves)
    ensures !done ==> AtCheck(w, q, routerName, vrfName, createdBefore) && q.moves == p.moves + 1
  {
    q := p.(vrfID := next);
    if w.puts(p.moves + 1).Refused? {
      Stops(w, p, next, PutError, routerName, vrfName, createdBefore);
      return q, true, Some(PutError);
    }
    if w.puts(p.moves + 1).Unanswered? {
      MoveLost(w, p, next, check, routerName, vrfName, createdBefore);
      return q.(trace := p.trace + [Lost(next)]), true, Some(PutError);
    }
    q := q.(moves := p.moves + 1);
    if !w.releases(p.moves) {
      MoveUnreleased(w, p, next, check, routerName, vrfName, createdBefore);
      return q.(trace := p.trace + [Wrote(next), ReleaseFailed(p.vrfID)]), true, Some(ReleaseError);
    }
    MoveMade(w, p, next, check, routerName, vrfName, createdBefore);
    return q.(trace := p.trace + [Wrote(next), Released(p.vrfID)]), false, None;
  }

  /** A move whose write was applied and not answered ends the claim with the value
      it left stuck. */
  lemma MoveLost(w: World, p: Progress, next: int, check: nat, router: string, self: string, createdBefore: bool)
    requires Underway(w, p, router, self, createdBefore) && p.ours && p.moves < MAX_REALLOCATIONS
    requires p.trace[|p.trace| - 1].Listed? && IsLowestFree(p.trace[|p.trace| - 1].api, router, self, next)
    requires p.lists == 2 * p.moves + 3 && Contested(p, router, self)
    requires check < |p.trace| && ListsHolder(p.trace[check], router, self, p.vrfID)
    requires w.puts(p.moves + 1).Unanswered?
    ensures var q := p.(vrfID := next, trace := p.trace + [Lost(next)]);
            && Ended(w, q, Some(PutError), router, self, createdBefore)
            && Stuck(q.trace) == [p.vrfID]
  {
    var u := p.trace + [Lost(next)];
    Snoc(p.trace, Lost(next));
    LostFollows(w, p, next);
    TallyWrite(w, p, Lost(next), router, self);
    LostConsistent(p.trace, next, p.vrfID, check, router, self);
    assert u[..|p.trace|] == p.trace;
  }

  lemma LostFollows(w: World, p: Progress, next: int)
    requires Follows(w, p) && Going(p.trace)
    ensures Follows(w, p.(vrfID := next, trace := p.trace + [Lost(next)]))
  {
    Snoc(p.trace, Lost(next));
    FollowsEffects(w, p.trace, [Lost(next)]);
  }

  lemma LostConsistent(t: seq<Event>, next: int, left: int, check: nat, router: string, self: string)
    requires Consistent(t, router, self) && Going(t)
    requires |t| >= 2 && t[|t| - 1].Listed? && IsLowestFree(t[|t| - 1].api, router, self, next)
    requires Writes(t) != [] && Writes(t)[|Writes(t)| - 1] == left
    requires check < |t| && ListsHolder(t[check], router, self, left)
    ensures Consistent(t + [Lost(next)], router, self) && Stuck(t + [Lost(next)]) == [left]
  {
    var u := t + [Lost(next)];
    Snoc(t, Lost(next));
    Kept(t, [Lost(next)], router, self);
    assert u[..|t|] == t && u[check] == t[check];
    assert SawHolder(u, |t|, router, self, left);
    assert JustifiedAt(u, |t|, router, self);
    assert Stuck(t) == [];
  }

  /** An answered move whose value left was released goes on. */
  lemma MoveMade(w: World, p: Progress, next: int, check: nat, router: string, self: string, createdBefore: bool)
    requires Underway(w, p, router, self, createdBefore) && p.ours && p.moves < MAX_REALLOCATIONS
    requires p.trace[|p.trace| - 1].Listed? && IsLowestFree(p.trace[|p.trace| - 1].api, router, self, next)
    requires p.lists == 2 * p.moves + 3 && Contested(p, router, self)
    requires check < |p.trace| && ListsHolder(p.trace[check], router, self, p.vrfID)
    requires !Fails(w.puts(p.moves + 1))
    ensures var q := p.(vrfID := next, moves := p.moves + 1, trace := p.trace + [Wrote(next), Released(p.vrfID)]);
            AtCheck(w, q, router, self, createdBefore)
  {
    Moved(p.trace, next, p.vrfID, true, check, router, self);
    MoveFollows(w, p, next, Released(p.vrfID));
    TallyMove(w, p, next, Released(p.vrfID), router, self);
  }

  lemma MoveFollows(w: World, p: Progress, next: int, e: Event)
    requires Follows(w, p) && Going(p.trace) && |Writes(p.trace)| == p.moves + 1 && !Fails(w.puts(p.moves + 1))
    requires e.Released? || e.ReleaseFailed?
    ensures Follows(w, p.(vrfID := next, moves := p.moves + 1, trace := p.trace + [Wrote(next), e]))
  {
    Snoc(p.trace, Wrote(next));
    Snoc(p.trace + [Wrote(next)], e);
    assert p.trace + [Wrote(next)] + [e] == p.trace + [Wrote(next), e];
    FollowsEffects(w, p.trace, [Wrote(next), e]);
  }

  /** One whose value left was not ends with it stuck. */
  lemma MoveUnreleased(w: World, p: Progress, next: int, check: nat, router: string, self: string, createdBefore: bool)
    requires Underway(w, p, router, self, createdBefore) && p.ours && p.moves < MAX_REALLOCATIONS
    requires p.trace[|p.trace| - 1].Listed? && IsLowestFree(p.trace[|p.trace| - 1].api, router, self, next)
    requires p.lists == 2 * p.moves + 3 && Contested(p, router, self)
    requires check < |p.trace| && ListsHolder(p.trace[check], router, self, p.vrfID)
    requires !Fails(w.puts(p.moves + 1)) && !w.releases(p.moves)
    ensures var t := p.trace + [Wrote(next), ReleaseFailed(p.vrfID)];
            var q := p.(vrfID := next, moves := p.moves + 1, trace := t);
            Ended(w, q, Some(ReleaseError), router, self, createdBefore)
  {
    var t := p.trace + [Wrote(next), ReleaseFailed(p.vrfID)];
    Moved(p.trace, next, p.vrfID, false, check, router, self);
    MoveFollows(w, p, next, ReleaseFailed(p.vrfID));
    TallyMove(w, p, next, ReleaseFailed(p.vrfID), router, self);
    assert t[..|t| - 1] == p.trace + [Wrote(next)];
  }

  /** Up to and with the first write. */
  method Begin(w: World, routerName: string, vrfName: string, createdBefore: bool)
    returns (p: Progress, done: bool, err: Option<ClaimError>)
    requires w.Valid()
    ensures done ==> Ended(w, p, err, routerName, vrfName, createdBefore)
    ensures !done ==> AtCheck(w, p, routerName, vrfName, createdBefore) && p.moves == 0
  {
    p := Progress(0, false, false, 0, 0, 0, []);
    if !w.locked {
      return p, true, Some(LockUnavailable);
    }
    if w.lists(0).None? {
      return p, true, Some(ListError);
    }
    var api := ViewOf(w.lists(0).value);
    var first := AllocateArgument(w.lists(0).value, routerName, vrfName);
    p := p.(lists := 1, trace := [Listed(api)]);
    FirstList(w, api, routerName, vrfName, createdBefore);
    if first.None? {
      return p, true, Some(NoFreeArgument);
    }
    if w.puts(0).Refused? {
      return p, true, Some(PutError);
    }
    FirstWrite(w, api, first.value, routerName, vrfName, createdBefore);
    if w.puts(0).Unanswered? {
      return p.(trace := [Listed(api), Lost(first.value)]), true, Some(PutError);
    }
    p := p.(vrfID := first.value, created := w.puts(0).Created?, ours := w.puts(0).Created?,
            trace := [Listed(api), Wrote(first.value)]);
    return p, false, None;
  }

  method ClaimArgument(w: World, routerName: string, vrfName: string, createdBefore: bool)
    returns (p: Progress, err: Option<ClaimError>)
    requires w.Valid()
    ensures Ended(w, p, err, routerName, vrfName, createdBefore)
  {
    var done;
    p, done, err := Begin(w, routerName, vrfName, createdBefore);
    while !done
      invariant done ==> Ended(w, p, err, routerName, vrfName, createdBefore)
      invariant !done ==> AtCheck(w, p, routerName, vrfName, createdBefore)
      decreases !done, MAX_REALLOCATIONS - p.moves
    {
      p, done, err := Pass(w, routerName, vrfName, createdBefore, p);
    }
  }

  lemma FirstList(w: World, api: View, router: string, self: string, createdBefore: bool)
    requires w.lists(0).Some? && api == ViewOf(w.lists(0).value)
    ensures var p := Progress(0, false, false, 0, 1, 0, [Listed(api)]);
            && (Exhausted(api, router, self) ==> Ended(w, p, Some(NoFreeArgument), router, self, createdBefore))
            && (w.puts(0).Refused? ==> Ended(w, p, Some(PutError), router, self, createdBefore))
  {
    Snoc([], Listed(api));
    assert [] + [Listed(api)] == [Listed(api)];
    assert Shown(w, api, true);
    assert Listed(api) in [Listed(api)];
  }

  lemma FirstWrite(w: World, api: View, first: int, router: string, self: string, createdBefore: bool)
    requires w.lists(0).Some? && api == ViewOf(w.lists(0).value) && Allocates(api, router, self, first)
    ensures var lost := Progress(0, false, false, 0, 1, 0, [Listed(api), Lost(first)]);
            w.puts(0).Unanswered? ==> Ended(w, lost, Some(PutError), router, self, createdBefore)
    ensures var created := w.puts(0).Created?;
            var wrote := Progress(first, created, created, 0, 1, 0, [Listed(api), Wrote(first)]);
            !Fails(w.puts(0)) ==> AtCheck(w, wrote, router, self, createdBefore)
  {
    var t := [Listed(api)];
    Snoc([], Listed(api));
    Snoc(t, Lost(first));
    Snoc(t, Wrote(first));
    assert [] + [Listed(api)] == t && t + [Lost(first)] == [Listed(api), Lost(first)];
    assert t + [Wrote(first)] == [Listed(api), Wrote(first)];
    assert Shown(w, api, true);
    assert [Listed(api), Lost(first)][..1] == t;
  }

  /** Some earlier attempt of the ADD created the instance. */
  ghost predicate CreatedBy(runs: seq<Progress>) {
    exists k | 0 <= k < |runs| :: runs[k].created
  }

  /** Over all attempts: the Arguments left, released, and left without a release. */
  function AllLeft(runs: seq<Progress>): multiset<int> {
    if runs == [] then multiset{} else AllLeft(runs[..|runs| - 1]) + multiset(Left(runs[|runs| - 1].trace))
  }

  function AllReleased(runs: seq<Progress>): multiset<int> {
    if runs == [] then multiset{} else AllReleased(runs[..|runs| - 1]) + multiset(Releases(runs[|runs| - 1].trace))
  }

  function AllStuck(runs: seq<Progress>): multiset<int> {
    if runs == [] then multiset{} else AllStuck(runs[..|runs| - 1]) + multiset(Stuck(runs[|runs| - 1].trace))
  }

  lemma {:induction false} LeftAccounted(runs: seq<Progress>, router: string, self: string)
    requires forall k | 0 <= k < |runs| :: Consistent(runs[k].trace, router, self)
    ensures AllLeft(runs) == AllReleased(runs) + AllStuck(runs)
  {
    if runs != [] {
      var t := runs[|runs| - 1].trace;
      LeftAccounted(runs[..|runs| - 1], router, self);
      assert multiset(Left(t)) == multiset(Releases(t)) + multiset(Stuck(t));
    }
  }

  /** Every Argument left was released exactly when no attempt ended in a move that
      was applied and not answered, or in a release that failed. */
  lemma {:induction false} ReleasedExactly(runs: seq<Progress>, router: string, self: string)
    requires forall k | 0 <= k < |runs| :: Consistent(runs[k].trace, router, self)
    ensures AllLeft(runs) == AllReleased(runs) <==>
            forall k | 0 <= k < |runs| :: !LostMove(runs[k].trace) && !FailedRelease(runs[k].trace)
  {
    LeftAccounted(runs, router, self);
    StuckExactly(runs);
    assert AllReleased(runs) + AllStuck(runs) == AllReleased(runs) <==> |AllStuck(runs)| == 0 by {
      assert |AllReleased(runs) + AllStuck(runs)| == |AllReleased(runs)| + |AllStuck(runs)|;
      assert |AllStuck(runs)| == 0 ==> AllStuck(runs) == multiset{};
    }
  }

  lemma {:induction false} StuckExactly(runs: seq<Progress>)
    ensures |AllStuck(runs)| == 0 <==>
            forall k | 0 <= k < |runs| :: !LostMove(runs[k].trace) && !FailedRelease(runs[k].trace)
  {
    if runs != [] {
      var init := runs[..|runs| - 1];
      StuckExactly(init);
      assert forall k | 0 <= k < |init| :: init[k] == runs[k];
      assert |multiset(Stuck(runs[|runs| - 1].trace))| == |Stuck(runs[|runs| - 1].trace)|;
    }
  }

  /** Attempt k ran on its own world, knowing what the ones before had created. */
  ghost predicate Attempted(worlds: nat -> World, runs: seq<Progress>, errs: seq<Option<ClaimError>>, k: nat,
                            router: string, self: string)
    requires k < |runs| == |errs|
  {
    Ended(worlds(k), runs[k], errs[k], router, self, CreatedBy(runs[..k]))
  }

  ghost predicate AllAttempted(worlds: nat -> World, runs: seq<Progress>, errs: seq<Option<ClaimError>>, router: string,
                               self: string)
  {
    |runs| == |errs| && forall k | 0 <= k < |runs| :: Attempted(worlds, runs, errs, k, router, self)
  }

  /** The attempts of one ADD. rest says whether an attempt's later steps succeed,
      transient whether its failure is worth a retry. */
  ghost predicate Attempts(worlds: nat -> World, rest: nat -> bool, transient: nat -> bool, router: string,
                           self: string, runs: seq<Progress>, errs: seq<Option<ClaimError>>, ok: bool)
  {
    && 1 <= |runs| == |errs| <= MAX_RETRIES + 1
    && AllAttempted(worlds, runs, errs, router, self)
    && (forall k: nat | k < |runs| - 1 :: !(errs[k].None? && rest(k)) && transient(k))
    && (ok <==> errs[|runs| - 1].None? && rest(|runs| - 1))
    && (!ok ==> |runs| == MAX_RETRIES + 1 || !transient(|runs| - 1))
  }

  method PublishAttempts(worlds: nat -> World, rest: nat -> bool, transient: nat -> bool,
                         routerName: string, vrfName: string)
    returns (vrfInstanceCreated: bool, ok: bool, runs: seq<Progress>, errs: seq<Option<ClaimError>>)
    requires forall i: nat :: worlds(i).Valid()
    ensures Attempts(worlds, rest, transient, routerName, vrfName, runs, errs, ok)
    ensures vrfInstanceCreated <==> CreatedBy(runs)
    ensures forall k | 0 <= k < |runs| :: MovedByRight(runs, k)
    // An instance no attempt of this ADD created is never moved.
    ensures !vrfInstanceCreated ==> forall k | 0 <= k < |runs| :: |Writes(runs[k].trace)| <= 1
    // What moves left was released, but for what a move or a release lost.
    ensures AllLeft(runs) == AllReleased(runs) + AllStuck(runs)
  {
    vrfInstanceCreated, ok, runs, errs := false, false, [], [];
    var attempt := 0;
    while attempt <= MAX_RETRIES
      invariant 0 <= attempt <= MAX_RETRIES + 1 && |runs| == |errs| == attempt && !ok
      invariant vrfInstanceCreated <==> CreatedBy(runs)
      invariant AllAttempted(worlds, runs, errs, routerName, vrfName)
      invariant forall k: nat | k < |runs| :: !(errs[k].None? && rest(k)) && transient(k)
    {
      var p, err := Attempt(worlds, runs, errs, routerName, vrfName, vrfInstanceCreated);
      runs, errs := runs + [p], errs + [err];
      vrfInstanceCreated := vrfInstanceCreated || p.created;
      ok := err.None? && rest(attempt);
      attempt := attempt + 1;
      if ok || !transient(attempt - 1) {
        break;
      }
    }
    AttemptsMove(worlds, runs, errs, routerName, vrfName);
  }

  /** One more attempt. */
  method Attempt(worlds: nat -> World, runs: seq<Progress>, errs: seq<Option<ClaimError>>, routerName: string,
                 vrfName: string, createdBefore: bool)
    returns (p: Progress, err: Option<ClaimError>)
    requires worlds(|runs|).Valid() && AllAttempted(worlds, runs, errs, routerName, vrfName)
    requires createdBefore <==> CreatedBy(runs)
    ensures AllAttempted(worlds, runs + [p], errs + [err], routerName, vrfName)
    ensures CreatedBy(runs + [p]) <==> createdBefore || p.created
  {
    p, err := ClaimArgument(worlds(|runs|), routerName, vrfName, createdBefore);
    Extends(worlds, runs, errs, p, err, routerName, vrfName);
  }

  lemma AttemptsMove(worlds: nat -> World, runs: seq<Progress>, errs: seq<Option<ClaimError>>, router: string,
                     self: string)
    requires AllAttempted(worlds, runs, errs, router, self)
    ensures forall k | 0 <= k < |runs| :: MovedByRight(runs, k)
    ensures !CreatedBy(runs) ==> forall k | 0 <= k < |runs| :: |Writes(runs[k].trace)| <= 1
    ensures AllLeft(runs) == AllReleased(runs) + AllStuck(runs)
  {
    forall k | 0 <= k < |runs|
      ensures MovedByRight(runs, k) && Consistent(runs[k].trace, router, self)
    {
      assert Attempted(worlds, runs, errs, k, router, self);
    }
    forall k | !CreatedBy(runs) && 0 <= k < |runs|
      ensures |Writes(runs[k].trace)| <= 1
    {
      assert MovedByRight(runs, k);
      assert CreatedBy(runs[..k]) ==> CreatedBy(runs);
    }
    LeftAccounted(runs, router, self);
  }

  lemma Extends(worlds: nat -> World, runs: seq<Progress>, errs: seq<Option<ClaimError>>, p: Progress,
                err: Option<ClaimError>, router: string, self: string)
    requires AllAttempted(worlds, runs, errs, router, self)
    requires Ended(worlds(|runs|), p, err, router, self, CreatedBy(runs))
    ensures var more, all := runs + [p], errs + [err];
            && AllAttempted(worlds, more, all, router, self)
            && (CreatedBy(more) <==> CreatedBy(runs) || p.created)
  {
    var more, all := runs + [p], errs + [err];
    forall k | 0 <= k < |more|
      ensures Attempted(worlds, more, all, k, router, self)
    {
      assert k < |runs| ==> more[..k] == runs[..k] && Attempted(worlds, runs, errs, k, router, self);
      assert k == |runs| ==> more[..k] == runs;
    }
    assert p.created ==> more[|runs|].created;
    assert forall k | 0 <= k < |runs| :: more[k] == runs[k];
  }

  /** Attempt k moved the instance only if it created it, or an earlier one
      did and no sibling link was there. */
  ghost predicate MovedByRight(runs: seq<Progress>, k: nat)
    requires k < |runs|
  {
    |Writes(runs[k].trace)| > 1 ==>
      runs[k].created || (CreatedBy(runs[..k]) && Asked(true) in runs[k].trace)
  }

  /** A move appends the write and the release of the value left. */
  lemma Moved(t: seq<Event>, next: int, left: int, released: bool, check: nat, router: string, self: string)
    requires Consistent(t, router, self) && Going(t)
    requires |t| >= 2 && t[|t| - 1].Listed? && IsLowestFree(t[|t| - 1].api, router, self, next)
    requires Writes(t) != [] && Writes(t)[|Writes(t)| - 1] == left
    requires check < |t| && ListsHolder(t[check], router, self, left)
    ensures var u := t + [Wrote(next), if released then Released(left) else ReleaseFailed(left)];
            && Consistent(u, router, self)
            && Writes(u) == Writes(t) + [next]
            && (Asked(true) in u <==> Asked(true) in t)
            && (released ==> Going(u))
  {
    var e := if released then Released(left) else ReleaseFailed(left);
    Snoc(t, Wrote(next));
    Snoc(t + [Wrote(next)], e);
    var u := t + [Wrote(next), e];
    assert u == t + [Wrote(next)] + [e];
    Kept(t, [Wrote(next), e], router, self);
    assert u[check] == t[check];
    assert SawHolder(u, |t| + 1, router, self, left);
    assert JustifiedAt(u, |t| + 1, router, self);
    assert Stuck(t) == [];
  }

  // ---- An ADD that leaves a value without releasing it

  lemma {:induction false} WritesPrefix(t: seq<Event>, k: nat)
    requires k <= |t|
    ensures Writes(t[..k]) <= Writes(t)
  {
    if k < |t| {
      WritesPrefix(t[..|t| - 1], k);
      assert t[..|t| - 1][..k] == t[..k];
    } else {
      assert t[..k] == t;
    }
  }

  lemma {:induction false} ReleasedIn(t: seq<Event>, arg: int)
    requires arg in Releases(t)
    ensures Released(arg) in t
  {
    if !t[|t| - 1].Released? || t[|t| - 1].arg != arg {
      ReleasedIn(t[..|t| - 1], arg);
    }
  }

  /** The first write is what the first List allocates. */
  lemma FirstWritten(w: World, p: Progress, err: Option<ClaimError>, router: string, self: string, createdBefore: bool,
                     a: int)
    requires Ended(w, p, err, router, self, createdBefore) && Writes(p.trace) != [] && Only(w, router, self, a)
    ensures Writes(p.trace)[0] == a
  {
    var t := p.trace;
    WritesPrefix(t, 2);
    assert ChosenAt(t, 0, router, self) && ChosenAt(t, 1, router, self);
    Snoc([], t[0]);
    Snoc([t[0]], t[1]);
    assert [] + [t[0]] == [t[0]] && t[..2] == [t[0]] + [t[1]];
    assert FromWorld(w, t, 0);
  }

  ghost predicate Only(w: World, router: string, self: string, a: int) {
    && w.lists(0).Some? && ARGUMENT_MIN <= a <= ARGUMENT_MAX
    && forall b | Allocates(ViewOf(w.lists(0).value), router, self, b) :: b == a
  }

  ghost predicate Shows(w: World, router: string, self: string, a: int, j: nat) {
    w.lists(j).Some? && HeldByOther(ViewOf(w.lists(j).value), router, self, a)
  }

  ghost predicate Full(w: World, router: string, self: string, j: nat) {
    w.lists(j).Some? && Exhausted(ViewOf(w.lists(j).value), router, self)
  }

  /** Nothing but writes may fail, and there is always a free Argument. */
  ghost predicate Fair(w: World, router: string, self: string) {
    && w.Valid() && w.locked && (forall j: nat :: w.lists(j).Some?) && (forall j: nat :: w.siblings(j).NoSiblings?)
    && (forall j: nat :: w.releases(j)) && forall j: nat :: !Full(w, router, self, j)
  }

  /** No writer ever takes the value allocated, a. */
  ghost predicate Calm(w: World, router: string, self: string, a: int) {
    && Fair(w, router, self) && Only(w, router, self, a)
    && (forall j: nat :: !Fails(w.puts(j))) && forall j: nat :: !Shows(w, router, self, a, j)
  }

  /** Another instance has it, and the write of the move is not answered. */
  ghost predicate Collides(w: World, router: string, self: string, a: int) {
    && Fair(w, router, self) && Only(w, router, self, a)
    && !Fails(w.puts(0)) && w.puts(1).Unanswered? && forall j: nat :: Shows(w, router, self, a, j)
  }

  lemma FairEnds(w: World, p: Progress, err: Option<ClaimError>, router: string, self: string, createdBefore: bool)
    requires Fair(w, router, self) && Ended(w, p, err, router, self, createdBefore)
    ensures err.None? || err.value.PutError? || err.value.StillCollides? || err.value.ReusedCollision?
    ensures Asked(false) !in p.trace
    ensures !FailedRelease(p.trace)
  {
    forall i | 0 <= i < |p.trace|
      ensures p.trace[i] != Asked(false)
      ensures p.trace[i].Listed? ==> !Exhausted(p.trace[i].api, router, self)
    {
      assert FromWorld(w, p.trace, i);
      if p.trace[i].Listed? {
        var j: nat :| w.lists(j).Some? && p.trace[i].api == ViewOf(w.lists(j).value);
        assert !Full(w, router, self, j);
      }
    }
  }

  lemma LastView(t: seq<Event>)
    requires t != [] && t[|t| - 1].Listed?
    ensures Views(t) != [] && Views(t)[|Views(t)| - 1] == t[|t| - 1].api
  {
  }

  /** A claim that may move its instance, where nothing fails: it ends with the first
      value no List after its write shows another holder of, and gives up exactly
      when all four were shown taken. */
  lemma ClaimsWhereFree(w: World, p: Progress, err: Option<ClaimError>, router: string, self: string,
                        createdBefore: bool)
    requires Fair(w, router, self) && Ended(w, p, err, router, self, createdBefore)
    requires (forall j: nat :: !Fails(w.puts(j))) && (w.puts(0).Created? || createdBefore)
    ensures err.None? || err.value.StillCollides?
    ensures Writes(p.trace) != [] && (err.Some? ==> |Writes(p.trace)| == MAX_REALLOCATIONS + 1)
    ensures forall k: nat | k < |Writes(p.trace)| ::
              !Shows(w, router, self, Writes(p.trace)[k], 2 * k + 1) <==> err.None? && k == |Writes(p.trace)| - 1
  {
    var t := p.trace;
    FairEnds(w, p, err, router, self, createdBefore);
    assert err.Some? ==> !err.value.PutError? && !EndsLost(t);
    if err.None? {
      LastView(t);
    }
  }

  /** Such a claim succeeds with its first write. */
  lemma CalmClaims(w: World, p: Progress, err: Option<ClaimError>, router: string, self: string, createdBefore: bool,
                   a: int)
    requires Calm(w, router, self, a) && Ended(w, p, err, router, self, createdBefore)
    ensures err.None? && Writes(p.trace) == [a] && Stuck(p.trace) == [] && (p.created <==> w.puts(0).Created?)
  {
    var t := p.trace;
    FairEnds(w, p, err, router, self, createdBefore);
    forall i | 0 <= i < |t|
      ensures !ListsHolder(t[i], router, self, a)
    {
      assert FromWorld(w, t, i);
      if t[i].Listed? {
        var j: nat :| w.lists(j).Some? && t[i].api == ViewOf(w.lists(j).value);
        assert !Shows(w, router, self, a, j);
      }
    }
    if Writes(t) != [] {
      FirstWritten(w, p, err, router, self, createdBefore, a);
    }
    forall i | 0 <= i < |t|
      ensures t[i] != Released(a)
    {
      assert JustifiedAt(t, i, router, self);
    }
    if |Writes(t)| > 1 {
      assert Left(t)[0] == a;
      ReleasedIn(t, a);
    }
  }

  /** Such a claim fails with the value it left stuck. */
  lemma CollidingLoses(w: World, p: Progress, err: Option<ClaimError>, router: string, self: string, a: int)
    requires Collides(w, router, self, a) && Ended(w, p, err, router, self, true)
    ensures err == Some(PutError) && Left(p.trace) == [a] && Releases(p.trace) == [] && Stuck(p.trace) == [a]
  {
    var t := p.trace;
    FairEnds(w, p, err, router, self, true);
    forall i | 0 <= i < |t| && t[i].Listed?
      ensures ListsHolder(t[i], router, self, a)
    {
      assert FromWorld(w, t, i);
      var j: nat :| w.lists(j).Some? && t[i].api == ViewOf(w.lists(j).value);
      assert Shows(w, router, self, a, j);
    }
    if Writes(t) != [] {
      FirstWritten(w, p, err, router, self, true, a);
    }
    assert Acknowledged(t) <= 1;
  }

  /** An ADD that claims a, fails later on, loses the answer of its move to b, and
      then succeeds with b: it is published with b, and a, which it served its
      traffic under, is never released. */
  lemma UnansweredMoveLeaks(worlds: nat -> World, rest: nat -> bool, transient: nat -> bool, router: string,
                            self: string, runs: seq<Progress>, errs: seq<Option<ClaimError>>, ok: bool, a: int, b: int)
    requires Attempts(worlds, rest, transient, router, self, runs, errs, ok)
    requires Calm(worlds(0), router, self, a) && worlds(0).puts(0).Created? && !rest(0) && transient(0)
    requires Collides(worlds(1), router, self, a) && transient(1)
    requires Calm(worlds(2), router, self, b) && rest(2)
    ensures ok && |runs| == 3 && Writes(runs[2].trace) == [b]
    ensures AllLeft(runs) == AllStuck(runs) == multiset{a} && AllReleased(runs) == multiset{}
  {
    CalmAttempt(worlds, runs, errs, 0, router, self, a);
    assert |runs| > 1;
    LosingAttempt(worlds, runs, errs, router, self, a);
    assert |runs| > 2;
    CalmAttempt(worlds, runs, errs, 2, router, self, b);
    LeftTotals(runs, a);
  }

  /** An attempt that left nothing. */
  predicate Plain(p: Progress) {
    Left(p.trace) == Stuck(p.trace) == Releases(p.trace) == []
  }

  lemma CalmAttempt(worlds: nat -> World, runs: seq<Progress>, errs: seq<Option<ClaimError>>, k: nat, router: string,
                    self: string, a: int)
    requires k < |runs| && AllAttempted(worlds, runs, errs, router, self)
    requires Calm(worlds(k), router, self, a)
    ensures errs[k].None? && Writes(runs[k].trace) == [a] && Plain(runs[k])
    ensures runs[k].created <==> worlds(k).puts(0).Created?
  {
    assert Attempted(worlds, runs, errs, k, router, self);
    CalmClaims(worlds(k), runs[k], errs[k], router, self, CreatedBy(runs[..k]), a);
  }

  lemma LosingAttempt(worlds: nat -> World, runs: seq<Progress>, errs: seq<Option<ClaimError>>, router: string,
                      self: string, a: int)
    requires 1 < |runs| && AllAttempted(worlds, runs, errs, router, self) && runs[0].created
    requires Collides(worlds(1), router, self, a)
    ensures errs[1].Some? && Left(runs[1].trace) == Stuck(runs[1].trace) == [a] && Releases(runs[1].trace) == []
  {
    assert Attempted(worlds, runs, errs, 1, router, self) && runs[..1][0].created;
    CollidingLoses(worlds(1), runs[1], errs[1], router, self, a);
  }

  lemma LeftTotals(runs: seq<Progress>, a: int)
    requires |runs| == 3 && Plain(runs[0]) && Plain(runs[2])
    requires Left(runs[1].trace) == Stuck(runs[1].trace) == [a] && Releases(runs[1].trace) == []
    ensures AllLeft(runs) == AllStuck(runs) == multiset{a} && AllReleased(runs) == multiset{}
  {
    assert runs[..2][..1] == [runs[0]] && [runs[0]][..0] == [];
    assert AllLeft([runs[0]]) == AllStuck([runs[0]]) == AllReleased([runs[0]]) == multiset{};
    assert AllLeft(runs[..2]) == AllStuck(runs[..2]) == multiset{a} && AllReleased(runs[..2]) == multiset{};
  }

  function Holding(router: string, names: seq<string>, args: seq<int>): seq<Item>
    requires |names| == |args|
  {
    seq(|names|, i requires 0 <= i < |names| => Item(names[i], Instance(Some(router), args[i])))
  }

  /** The worlds of such an ADD. */
  function LeakingWorld(router: string, self: string, other: string, attempt: nat): World {
    World(
      true,
      (i: nat) =>
        Some(if attempt == 0 then []
             else if attempt == 1 then Holding(router, [self, other], [1, 1])
             else Holding(router, [self, other], [2, 1])),
      (i: nat) => if attempt == 0 then Created else if attempt == 1 && i > 0 then Unanswered else Updated,
      (i: nat) => NoSiblings,
      (i: nat) => true)
  }

  lemma TwoHolders(router: string, self: string, other: string, a: int)
    requires self != other
    ensures var items := Holding(router, [self, other], [a, 1]);
            && UniqueNames(items)
            && ViewOf(items) == map[self := Instance(Some(router), a), other := Instance(Some(router), 1)]
  {
    var items := Holding(router, [self, other], [a, 1]);
    assert items[..1] == [items[0]] && items[..1][..0] == [];
    assert ViewOf(items[..1]) == map[self := Instance(Some(router), a)];
  }

  lemma LeakingWorlds(router: string, self: string, other: string)
    requires self != other
    ensures Calm(LeakingWorld(router, self, other, 0), router, self, 1)
    ensures Collides(LeakingWorld(router, self, other, 1), router, self, 1)
    ensures Calm(LeakingWorld(router, self, other, 2), router, self, 2)
  {
    TwoHolders(router, self, other, 1);
    TwoHolders(router, self, other, 2);
    var one := ViewOf(Holding(router, [self, other], [1, 1]));
    var two := ViewOf(Holding(router, [self, other], [2, 1]));
    assert !HeldByOther(map[], router, self, 1) && IsLowestFree(map[], router, self, 1);
    assert HoldsArgument(one, router, other, 1) && HeldByOther(one, router, self, 1);
    assert !HeldByOther(one, router, self, 2) && !HeldByOther(two, router, self, 2);
  }

  /** There is one, for any two instances. */
  method LeakingAdd(router: string, self: string, other: string) returns (ok: bool, runs: seq<Progress>)
    requires self != other
    ensures ok && |runs| == 3 && Writes(runs[2].trace) == [2]
    ensures AllLeft(runs) == AllStuck(runs) == multiset{1} && AllReleased(runs) == multiset{}
  {
    var worlds := (i: nat) => LeakingWorld(router, self, other, if i < 2 then i else 2);
    var rest := (i: nat) => i > 0;
    var transient := (i: nat) => true;
    LeakingWorlds(router, self, other);
    var created, errs;
    created, ok, runs, errs := PublishAttempts(worlds, rest, transient, router, self);
    UnansweredMoveLeaks(worlds, rest, transient, router, self, runs, errs, ok, 1, 2);
  }
}
