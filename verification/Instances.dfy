/** The BGPVRFInstance objects galactic-bgp shares through the Kubernetes API,
    and the allocator of their SID Arguments (internal/cnibgp/argument.go,
    allocateArgument in internal/cnibgp/bgp.go). */
module Instances {
  import opened Common

  // The 12-bit Argument; 0x000 is reserved.
  const ARGUMENT_MIN := 0x001
  const ARGUMENT_MAX := 0xFFF

  datatype Instance = Instance(routerRef: Option<string>, vrfID: int)

  /** What one List call returns, by object name. */
  type View = map<string, Instance>

  /** One element of a List response, which has an order but no repeated name. */
  datatype Item = Item(name: string, inst: Instance)

  predicate Under(api: View, router: string, name: string) {
    name in api && api[name].routerRef == Some(router)
  }

  predicate HoldsArgument(api: View, router: string, name: string, arg: int) {
    Under(api, router, name) && api[name].vrfID == arg
  }

  predicate HeldByOther(api: View, router: string, self: string, arg: int) {
    exists n | n in api :: n != self && HoldsArgument(api, router, n, arg)
  }

  /** No two instances of the router hold the same Argument. */
  ghost predicate DistinctArguments(api: View, router: string) {
    forall m, n | Under(api, router, m) && Under(api, router, n) && m != n :: api[m].vrfID != api[n].vrfID
  }

  ghost predicate IsLowestFree(api: View, router: string, self: string, arg: int) {
    && ARGUMENT_MIN <= arg <= ARGUMENT_MAX
    && !HeldByOther(api, router, self, arg)
    && forall a | ARGUMENT_MIN <= a < arg :: HeldByOther(api, router, self, a)
  }

  ghost predicate Exhausted(api: View, router: string, self: string) {
    forall a | ARGUMENT_MIN <= a <= ARGUMENT_MAX :: HeldByOther(api, router, self, a)
  }

  ghost predicate Named(items: seq<Item>, n: string) {
    exists i | 0 <= i < |items| :: items[i].name == n
  }

  /** items enumerates api: every object once, in some order. */
  ghost predicate Lists(items: seq<Item>, api: View) {
    && (forall i | 0 <= i < |items| :: items[i].name in api && api[items[i].name] == items[i].inst)
    && (forall n | n in api :: Named(items, n))
  }

  ghost predicate UniqueNames(items: seq<Item>) {
    forall i, j | 0 <= i < j < |items| :: items[i].name != items[j].name
  }

  /** The objects a List response holds. */
  function ViewOf(items: seq<Item>): (api: View) {
    if items == [] then map[] else
      var k := |items| - 1;
      ViewOf(items[..k])[items[k].name := items[k].inst]
  }

  lemma {:induction false} ListsViewOf(items: seq<Item>)
    requires UniqueNames(items)
    ensures Lists(items, ViewOf(items))
  {
    if items != [] {
      var k := |items| - 1;
      var init := items[..k];
      ListsViewOf(init);
      forall i | 0 <= i < k
        ensures items[i].name in ViewOf(items) && ViewOf(items)[items[i].name] == items[i].inst
      {
        assert init[i] == items[i];
      }
      forall n | n in ViewOf(items)
        ensures Named(items, n)
      {
        if n == items[k].name {
        } else {
          assert Named(init, n);
        }
      }
    }
  }

  predicate Uses(item: Item, router: string, self: string, arg: int) {
    item.inst.routerRef == Some(router) && item.name != self && item.inst.vrfID == arg
  }

  lemma UsedIsHeld(items: seq<Item>, router: string, self: string, arg: int)
    requires UniqueNames(items)
    ensures HeldByOther(ViewOf(items), router, self, arg) <==>
            exists i | 0 <= i < |items| :: Uses(items[i], router, self, arg)
  {
    ListsViewOf(items);
    var api := ViewOf(items);
    if HeldByOther(api, router, self, arg) {
      var n :| n in api && n != self && HoldsArgument(api, router, n, arg);
      assert Named(items, n);
      var i :| 0 <= i < |items| && items[i].name == n;
      assert Uses(items[i], router, self, arg);
    }
  }

  method LowestFreeArgument(items: seq<Item>, routerName: string, self: string)
    returns (arg: Option<int>)
    requires UniqueNames(items)
    ensures arg.Some? ==> IsLowestFree(ViewOf(items), routerName, self, arg.value)
    ensures arg.None? <==> Exhausted(ViewOf(items), routerName, self)
    ensures arg.None? ==> |items| >= ARGUMENT_MAX - ARGUMENT_MIN + 1
  {
    ghost var api := ViewOf(items);
    var used: set<int> := {};
    for k := 0 to |items|
      invariant |used| <= k
      invariant forall a :: a in used <==> (exists i | 0 <= i < k :: Uses(items[i], routerName, self, a))
    {
      if items[k].inst.routerRef == Some(routerName) && items[k].name != self {
        used := used + {items[k].inst.vrfID};
      }
    }
    forall a
      ensures a in used <==> HeldByOther(api, routerName, self, a)
    {
      UsedIsHeld(items, routerName, self, a);
    }
    var next := ARGUMENT_MIN;
    while next <= ARGUMENT_MAX
      invariant ARGUMENT_MIN <= next <= ARGUMENT_MAX + 1
      invariant forall a | ARGUMENT_MIN <= a < next :: a in used
    {
      if next !in used {
        return Some(next);
      }
      next := next + 1;
    }
    RangeWithin(ARGUMENT_MIN, ARGUMENT_MAX, used);
    return None;
  }

  /** A set holding every value of a range has at least as many elements. */
  lemma {:induction false} RangeWithin(lo: int, hi: int, s: set<int>)
    requires lo <= hi + 1
    requires forall a | lo <= a <= hi :: a in s
    ensures |s| >= hi - lo + 1
    decreases hi - lo
  {
    if lo <= hi {
      RangeWithin(lo + 1, hi, s - {lo});
    }
  }

  /** What allocateArgument may return for a List response: the value the
      instance already has under this router, or else the lowest free one. */
  ghost predicate Allocates(api: View, router: string, self: string, arg: int) {
    if Under(api, router, self) then arg == api[self].vrfID else IsLowestFree(api, router, self, arg)
  }

  method AllocateArgument(items: seq<Item>, routerName: string, self: string)
    returns (arg: Option<int>)
    requires UniqueNames(items)
    ensures arg.Some? ==> Allocates(ViewOf(items), routerName, self, arg.value)
    ensures arg.None? <==> !Under(ViewOf(items), routerName, self) && Exhausted(ViewOf(items), routerName, self)
  {
    ListsViewOf(items);
    for k := 0 to |items|
      invariant forall i | 0 <= i < k :: !(items[i].name == self && items[i].inst.routerRef == Some(routerName))
    {
      if items[k].inst.routerRef == Some(routerName) && items[k].name == self {
        return Some(items[k].inst.vrfID);
      }
    }
    arg := LowestFreeArgument(items, routerName, self);
  }

  /** argumentHolder: the first other instance of the router in items that
      holds arg. */
  method ArgumentHolder(items: seq<Item>, routerName: string, self: string, arg: int)
    returns (holder: Option<string>)
    requires UniqueNames(items)
    ensures holder.None? <==> !HeldByOther(ViewOf(items), routerName, self, arg)
    ensures holder.Some? ==> holder.value != self && HoldsArgument(ViewOf(items), routerName, holder.value, arg)
  {
    UsedIsHeld(items, routerName, self, arg);
    ListsViewOf(items);
    for k := 0 to |items|
      invariant forall i | 0 <= i < k :: !Uses(items[i], routerName, self, arg)
    {
      if Uses(items[k], routerName, self, arg) {
        return Some(items[k].name);
      }
    }
    return None;
  }
}
