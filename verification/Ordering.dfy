/**
 Ascending lists of strings, for the source's calls of `sort.Strings` on lists that it has gathered in no
 fixed order.
 */
module Ordering {

  ghost predicate Distinct(names: seq<string>) {
    forall i, j :: 0 <= i < j < |names| ==> names[i] != names[j]
  }

  /** The order of strings. */
  predicate Less(a: string, b: string) {
    b != "" && (a == "" || a[0] < b[0] || (a[0] == b[0] && Less(a[1..], b[1..])))
  }

  lemma {:induction false} LessIsStrict(a: string, b: string)
    ensures !(Less(a, b) && Less(b, a))
    ensures !Less(a, a)
  {
    if a == "" {
    } else {
      LessIsStrict(a[1..], if b == "" then "" else b[1..]);
    }
  }

  lemma {:induction false} LessIsTotal(a: string, b: string)
    ensures Less(a, b) || Less(b, a) || a == b
  {
    if a == "" || b == "" {
    } else {
      LessIsTotal(a[1..], b[1..]);
      if a[0] == b[0] && a[1..] == b[1..] {
        assert a == [a[0]] + a[1..] == b;
      }
    }
  }

  lemma {:induction false} LessIsTransitive(a: string, b: string, c: string)
    requires Less(a, b) && Less(b, c)
    ensures Less(a, c)
  {
    if a == "" {
    } else if a[0] == b[0] == c[0] {
      LessIsTransitive(a[1..], b[1..], c[1..]);
    }
  }

  /** The strings agree up to `i`, where the first ends or has the smaller character. */
  predicate DifferAt(a: string, b: string, i: nat) {
    i <= |a| && i < |b| && a[..i] == b[..i] && (i == |a| || a[i] < b[i])
  }

  /** Strings are in the order of their first difference; a proper prefix comes first. */
  lemma {:induction false} LessIff(a: string, b: string)
    ensures Less(a, b) <==> exists i: nat :: DifferAt(a, b, i)
  {
    if b == "" {
    } else if a == "" || a[0] != b[0] {
      if Less(a, b) {
        assert DifferAt(a, b, 0);
      } else {
        forall i: nat
          ensures !DifferAt(a, b, i)
        {
          if i > 0 && i <= |a| && i <= |b| {
            assert a[..i][0] == a[0] && b[..i][0] == b[0];
          }
        }
      }
    } else {
      LessIff(a[1..], b[1..]);
      forall i: nat
        ensures DifferAt(a, b, i + 1) <==> DifferAt(a[1..], b[1..], i)
      {
        DifferLater(a, b, i);
      }
      if Less(a, b) {
        var i: nat :| DifferAt(a[1..], b[1..], i);
        assert DifferAt(a, b, i + 1);
      }
      if exists i: nat :: DifferAt(a, b, i) {
        var i: nat :| DifferAt(a, b, i);
        assert i != 0;
        var j: nat := i - 1;
        DifferLater(a, b, j);
        assert DifferAt(a[1..], b[1..], j);
      }
    }
  }

  lemma DifferLater(a: string, b: string, i: nat)
    requires a != "" && b != "" && a[0] == b[0]
    ensures DifferAt(a, b, i + 1) <==> DifferAt(a[1..], b[1..], i)
  {
    if i + 1 <= |a| && i + 1 <= |b| {
      assert a[..i + 1] == [a[0]] + a[1..][..i];
      assert b[..i + 1] == [b[0]] + b[1..][..i];
      assert a[1..][..i] == a[..i + 1][1..] && b[1..][..i] == b[..i + 1][1..];
    }
  }

  predicate Ascending(names: seq<string>) {
    forall i, j :: 0 <= i < j < |names| ==> Less(names[i], names[j])
  }

  /** There is one ascending list of a set of names, so the sorted result does not depend on the
      order in which names were collected. */
  lemma {:induction false} AscendingIsUnique(a: seq<string>, b: seq<string>)
    requires Ascending(a) && Ascending(b) && forall n :: n in a <==> n in b
    ensures a == b
  {
    if a == [] {
      if b != [] {
        HasMember(b);
      }
    } else {
      HasMember(a);
      var last := a[|a| - 1];
      SameLast(a, b);
      hide Less;
      FrontMembers(a, last);
      FrontMembers(b, last);
      var first, second := a[..|a| - 1], b[..|b| - 1];
      assert Ascending(first) && Ascending(second);
      forall n | n in first
        ensures n in second
      {
        assert n in a && n != last;
        assert n in b;
      }
      forall n | n in second
        ensures n in first
      {
        assert n in b && n != last;
        assert n in a;
      }
      AscendingIsUnique(first, second);
      assert a == a[..|a| - 1] + [last] && b == b[..|b| - 1] + [last];
    }
  }

  lemma HasMember(names: seq<string>)
    requires names != []
    ensures exists n :: n in names
  {
    assert names[0] in names;
  }

  lemma SameLast(a: seq<string>, b: seq<string>)
    requires Ascending(a) && Ascending(b) && a != [] && b != [] && forall n :: n in a <==> n in b
    ensures a[|a| - 1] == b[|b| - 1]
  {
    var x, y := a[|a| - 1], b[|b| - 1];
    hide Less;
    assert x in b && y in a;
    LessIsStrict(x, y);
  }

  lemma FrontMembers(a: seq<string>, last: string)
    requires Ascending(a) && a != [] && a[|a| - 1] == last
    ensures forall n :: n in a[..|a| - 1] <==> n in a && n != last
  {
    hide Less;
    LessIsStrict(last, last);
  }

  /** Insert a new name into an ascending list. */
  method InsertInto(sorted: seq<string>, name: string) returns (r: seq<string>)
    requires Ascending(sorted) && name !in sorted
    ensures Ascending(r) && forall n :: n in r <==> n in sorted || n == name
  {
    var i := |sorted|;
    while i > 0 && Less(name, sorted[i - 1])
      invariant 0 <= i <= |sorted|
      invariant forall j :: i <= j < |sorted| ==> Less(name, sorted[j])
    {
      i := i - 1;
    }
    if i > 0 {
      LessIsTotal(sorted[i - 1], name);
      forall j | 0 <= j < i
        ensures Less(sorted[j], name)
      {
        if j < i - 1 {
          LessIsTransitive(sorted[j], sorted[i - 1], name);
        }
      }
    }
    hide Less;
    r := sorted[..i] + [name] + sorted[i..];
    assert sorted == sorted[..i] + sorted[i..];
  }

  method Sorted(names: seq<string>) returns (r: seq<string>)
    requires Distinct(names)
    ensures Ascending(r) && forall n :: n in r <==> n in names
  {
    hide Less;
    r := [];
    for i := 0 to |names|
      invariant Ascending(r) && forall n :: n in r <==> n in names[..i]
    {
      assert names[..i + 1] == names[..i] + [names[i]];
      r := InsertInto(r, names[i]);
    }
    assert names[..|names|] == names;
  }
}
