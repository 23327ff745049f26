/** Which links of other attachments share a VPC's VRF (internal/cnibgp/resource.go,
    internal/plumbing/vrf/vrf.go). */
module SiblingLinks {
  /** master is the index of the link it is enslaved to, or 0. */
  datatype Link = Link(name: string, index: nat, isVrf: bool, master: nat)

  /** No two links have the same name or index, and no index is 0. */
  predicate WellFormed(links: seq<Link>) {
    && (forall l | l in links :: l.index > 0)
    && forall i, j | 0 <= i < j < |links| :: links[i].name != links[j].name && links[i].index != links[j].index
  }

  ghost predicate IsVrfOf(links: seq<Link>, vrfName: string, v: Link) {
    v in links && v.isVrf && v.name == vrfName
  }

  /** A link enslaved to the named VRF that is not own. */
  ghost predicate IsSibling(links: seq<Link>, vrfName: string, own: string, name: string) {
    exists v, l :: IsVrfOf(links, vrfName, v) && l in links && l.master == v.index && l.name == name && name != own
  }

  method FindVrf(links: seq<Link>, vrfName: string) returns (index: nat)
    requires WellFormed(links)
    ensures index == 0 <==> !exists v :: IsVrfOf(links, vrfName, v)
    ensures forall v | IsVrfOf(links, vrfName, v) :: v.index == index
  {
    for i := 0 to |links|
      invariant forall k | 0 <= k < i :: !(links[k].isVrf && links[k].name == vrfName)
    {
      if links[i].name == vrfName && links[i].isVrf {
        assert IsVrfOf(links, vrfName, links[i]);
        return links[i].index;
      }
    }
    return 0;
  }

  method EnslavedTo(links: seq<Link>, master: nat) returns (names: seq<string>)
    ensures forall n :: n in names <==> exists i :: 0 <= i < |links| && links[i].master == master && links[i].name == n
  {
    names := [];
    for i := 0 to |links|
      invariant forall n :: n in names <==> exists k :: 0 <= k < i && links[k].master == master && links[k].name == n
    {
      if links[i].master == master {
        names := names + [links[i].name];
      }
    }
  }

  /** Exactly the other links enslaved to the VPC's VRF; none without a VRF. */
  method SiblingHostLinks(links: seq<Link>, vrfName: string, own: string) returns (siblings: seq<string>)
    requires WellFormed(links)
    ensures forall n :: n in siblings <==> IsSibling(links, vrfName, own, n)
  {
    siblings := [];
    var index := FindVrf(links, vrfName);
    if index == 0 {
      return;
    }
    var names := EnslavedTo(links, index);
    for i := 0 to |names|
      invariant forall n :: n in siblings <==> n in names[..i] && n != own
    {
      assert names[..i + 1] == names[..i] + [names[i]];
      if names[i] != own {
        siblings := siblings + [names[i]];
      }
    }
    assert names[..|names|] == names;
    forall n
      ensures n in siblings <==> IsSibling(links, vrfName, own, n)
    {
      var v :| IsVrfOf(links, vrfName, v);
      if n in names && n != own {
        var i :| 0 <= i < |links| && links[i].master == index && links[i].name == n;
        assert IsVrfOf(links, vrfName, v) && links[i] in links;
      }
    }
  }
}
