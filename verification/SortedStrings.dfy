/** Strings in the byte-wise order Go's sort and < give them. */
module SortedStrings {
  /** Byte-wise lexicographic order. */
  predicate Less(a: string, b: string) {
    b != [] && (a == [] || a[0] < b[0] || (a[0] == b[0] && Less(a[1..], b[1..])))
  }

  lemma {:induction false} LessTransitive(a: string, b: string, c: string)
    requires Less(a, b) && Less(b, c)
    ensures Less(a, c)
  {
    if a != [] && a[0] == b[0] == c[0] {
      LessTransitive(a[1..], b[1..], c[1..]);
    }
  }

  lemma {:induction false} LessTotal(a: string, b: string)
    ensures Less(a, b) || a == b || Less(b, a)
    ensures !(Less(a, b) && Less(b, a)) && !Less(a, a)
  {
    if a != [] {
      LessTotal(a[1..], a[1..]);
      if b != [] {
        LessTotal(a[1..], b[1..]);
        assert a == [a[0]] + a[1..] && b == [b[0]] + b[1..];
      }
    }
  }

  ghost predicate Ascending(s: seq<string>) {
    forall i, j | 0 <= i < j < |s| :: Less(s[i], s[j])
  }

  /** There is one ascending list of a set, so the order its elements came in does
      not show. */
  lemma {:induction false} AscendingUnique(s: seq<string>, t: seq<string>)
    requires Ascending(s) && Ascending(t) && forall x :: x in s <==> x in t
    ensures s == t
  {
    if t != [] {
      var head := t[0];
      assert head in t;
      if s == [] {
        assert false;
      }
    }
    if s != [] {
      assert s[0] in t && t[0] in s;
      Heads(s, t);
      forall x
        ensures x in s[1..] <==> x in t[1..]
      {
        TailIn(s, x);
        TailIn(t, x);
      }
      AscendingUnique(s[1..], t[1..]);
    }
  }

  lemma Heads(s: seq<string>, t: seq<string>)
    requires Ascending(s) && Ascending(t) && s != [] && t != [] && s[0] in t && t[0] in s
    ensures s[0] == t[0]
  {
    var i :| 0 <= i < |t| && t[i] == s[0];
    var j :| 0 <= j < |s| && s[j] == t[0];
    LessTotal(s[0], t[0]);
  }

  lemma TailIn(s: seq<string>, x: string)
    requires Ascending(s) && s != []
    ensures x in s[1..] <==> x in s && x != s[0]
  {
    LessTotal(s[0], s[0]);
    if x in s && x != s[0] {
      var i :| 0 <= i < |s| && s[i] == x;
      assert s[1..][i - 1] == x;
    }
  }

  /** Inserts x where it belongs. */
  method Insert(s: seq<string>, x: string) returns (r: seq<string>)
    requires Ascending(s) && x !in s
    ensures Ascending(r) && forall y :: y in r <==> y in s || y == x
  {
    var i := 0;
    while i < |s| && Less(s[i], x)
      invariant 0 <= i <= |s| && forall k | 0 <= k < i :: Less(s[k], x)
    {
      i := i + 1;
    }
    r := s[..i] + [x] + s[i..];
    forall k | i <= k < |s|
      ensures Less(x, s[k])
    {
      LessTotal(s[i], x);
      if k > i {
        LessTransitive(x, s[i], s[k]);
      }
    }
  }

  ghost predicate Nondescending(s: seq<string>) {
    forall i, j | 0 <= i < j < |s| :: s[i] == s[j] || Less(s[i], s[j])
  }

  /** Inserts x after everything below it. */
  method InsertBefore(s: seq<string>, x: string) returns (r: seq<string>)
    requires Nondescending(s)
    ensures Nondescending(r) && multiset(r) == multiset(s) + multiset{x}
  {
    var i := 0;
    while i < |s| && Less(s[i], x)
      invariant 0 <= i <= |s| && forall k | 0 <= k < i :: Less(s[k], x)
    {
      i := i + 1;
    }
    r := s[..i] + [x] + s[i..];
    assert s == s[..i] + s[i..];
    forall k | i <= k < |s|
      ensures x == s[k] || Less(x, s[k])
    {
      LessTotal(s[i], x);
      if k > i && s[i] != x && s[i] != s[k] {
        LessTransitive(x, s[i], s[k]);
      }
    }
    InsertedInOrder(s, i, x);
  }

  lemma InsertedInOrder(s: seq<string>, i: nat, x: string)
    requires Nondescending(s) && i <= |s| && (forall k | 0 <= k < i :: Less(s[k], x))
    requires forall k | i <= k < |s| :: x == s[k] || Less(x, s[k])
    ensures Nondescending(s[..i] + [x] + s[i..])
  {
  }

  method Sort(s: seq<string>) returns (r: seq<string>)
    ensures Nondescending(r) && multiset(r) == multiset(s)
  {
    r := [];
    for i := 0 to |s|
      invariant Nondescending(r) && multiset(r) == multiset(s[..i])
    {
      assert s[..i + 1] == s[..i] + [s[i]];
      r := InsertBefore(r, s[i]);
    }
    assert s[..|s|] == s;
  }

  ghost predicate NoRepeats(s: seq<string>) {
    forall i, j | 0 <= i < j < |s| :: s[i] != s[j]
  }

  /** In sorted order, repeats are neighbours. */
  lemma RepeatsAdjacent(s: seq<string>)
    requires Nondescending(s) && forall i | 0 < i < |s| :: s[i] != s[i - 1]
    ensures Ascending(s)
  {
    forall i, j | 0 <= i < j < |s|
      ensures Less(s[i], s[j])
    {
      assert Less(s[j - 1], s[j]);
      if i < j - 1 && s[i] != s[j - 1] {
        LessTransitive(s[i], s[j - 1], s[j]);
      }
    }
  }

  lemma AscendingNoRepeats(s: seq<string>)
    requires Ascending(s)
    ensures NoRepeats(s)
  {
    forall i, j | 0 <= i < j < |s|
      ensures s[i] != s[j]
    {
      LessTotal(s[i], s[j]);
    }
  }
}
