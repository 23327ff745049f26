/** The list helpers of cmd/galactic-gateway/gateway.go and cmd/galactic-nat/nat.go. */
module Interfaces {
  predicate Distinct(s: seq<string>) {
    forall i, j | 0 <= i < j < |s| :: s[i] != s[j]
  }

  /** The elements of s that keep holds of, in order. */
  function Kept(s: seq<string>, keep: string -> bool): (r: seq<string>)
    ensures forall x :: x in r <==> x in s && keep(x)
    ensures |r| <= |s|
  {
    if s == [] then []
    else
      var last := s[|s| - 1];
      Kept(s[..|s| - 1], keep) + if keep(last) then [last] else []
  }

  function Outside(covered: seq<string>): string -> bool {
    x => x !in covered
  }

  function Inside(covered: seq<string>): string -> bool {
    x => x in covered
  }

  /** Every one of targets not in covered, in targets' order. */
  method Uncovered(targets: seq<string>, covered: seq<string>) returns (out: seq<string>)
    ensures out == Kept(targets, Outside(covered))
    ensures out == [] <==> forall t | t in targets :: t in covered
  {
    out := [];
    for i := 0 to |targets|
      invariant out == Kept(targets[..i], Outside(covered))
    {
      assert targets[..i + 1][..i] == targets[..i];
      if targets[i] !in covered {
        out := out + [targets[i]];
      }
    }
    assert targets[..|targets|] == targets;
    if out != [] {
      assert out[0] in out;
    } else {
      forall t | t in targets
        ensures t in covered
      {
        assert t !in out;
      }
    }
  }

  method PublicReturnOverlap(targets: seq<string>, returnTargets: seq<string>) returns (overlap: seq<string>)
    ensures overlap == Kept(returnTargets, Inside(targets))
  {
    overlap := [];
    for i := 0 to |returnTargets|
      invariant overlap == Kept(returnTargets[..i], Inside(targets))
    {
      assert returnTargets[..i + 1][..i] == returnTargets[..i];
      if returnTargets[i] in targets {
        overlap := overlap + [returnTargets[i]];
      }
    }
    assert returnTargets[..|returnTargets|] == returnTargets;
  }

  /** The place of a name's first occurrence. */
  ghost predicate First(s: seq<string>, x: string, i: nat) {
    i < |s| && s[i] == x && x !in s[..i]
  }

  /** out keeps the first of each name of names, in order. */
  ghost predicate Deduped(names: seq<string>, out: seq<string>) {
    && Distinct(out)
    && (forall x :: x in out <==> x in names)
    && forall a, b, i: nat, j: nat | 0 <= a < b < |out| && First(names, out[a], i) && First(names, out[b], j) :: i < j
  }

  method Dedupe(names: seq<string>) returns (out: seq<string>)
    ensures Deduped(names, out)
    ensures Distinct(names) ==> out == names
  {
    out := [];
    for k := 0 to |names|
      invariant Distinct(out)
      invariant forall x :: x in out <==> x in names[..k]
      invariant forall a, b, i: nat, j: nat
                  | 0 <= a < b < |out| && First(names, out[a], i) && First(names, out[b], j) :: i < j
      invariant Distinct(names) ==> out == names[..k]
    {
      assert names[..k + 1] == names[..k] + [names[k]];
      if names[k] !in out {
        FirstIn(names, k, out);
        out := out + [names[k]];
      }
    }
    assert names[..|names|] == names;
  }

  lemma FirstIn(names: seq<string>, k: nat, out: seq<string>)
    requires k < |names| && names[k] !in names[..k] && forall x :: x in out <==> x in names[..k]
    ensures forall a, i: nat, j: nat | 0 <= a < |out| && First(names, out[a], i) && First(names, names[k], j) :: i < j
  {
    forall a, i: nat, j: nat | 0 <= a < |out| && First(names, out[a], i) && First(names, names[k], j)
      ensures i < j
    {
      assert out[a] in names[..k];
    }
  }
}
