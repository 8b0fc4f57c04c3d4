/** Order-free sums over finite maps, for the source's loops that range over a Go map. */
module Sums {

  /** The sum of all the values of a finite map. */
  ghost function Total<K(!new)>(m: map<K, real>): real
    decreases |m|
  {
    if m == map[] then 0.0
    else
      var k :| k in m;
      assert |m - {k}| < |m| by { SmallerWithout(m, k); }
      m[k] + Total(m - {k})
  }

  lemma SmallerWithout<K, V>(m: map<K, V>, k: K)
    requires k in m
    ensures |m - {k}| == |m| - 1
  {
    assert (m - {k}).Keys == m.Keys - {k};
    assert |m.Keys| == |m| && |(m - {k}).Keys| == |m - {k}|;
  }

  /** Any key may be the one that is added first. */
  lemma {:induction false} TotalSplit<K(!new)>(m: map<K, real>, k: K)
    requires k in m
    ensures Total(m) == m[k] + Total(m - {k})
    decreases |m|
  {
    var first :| first in m && Total(m) == m[first] + Total(m - {first});
    if first == k {
    } else {
      SmallerWithout(m, first);
      SmallerWithout(m, k);
      TotalSplit(m - {first}, k);
      TotalSplit(m - {k}, first);
      assert m - {first} - {k} == m - {k} - {first};
    }
  }

  function GetOr<K, V>(m: map<K, V>, k: K, default: V): V {
    if k in m then m[k] else default
  }

  /** Writing one key moves the sum by the difference at that key. */
  lemma TotalUpdate<K(!new)>(m: map<K, real>, k: K, v: real)
    ensures Total(m[k := v]) == Total(m) - GetOr(m, k, 0.0) + v
  {
    TotalSplit(m[k := v], k);
    assert m[k := v] - {k} == m - {k};
    if k in m {
      TotalSplit(m, k);
    } else {
      assert m - {k} == m;
    }
  }

  /** The part of a map that a loop over its keys still has to visit. */
  ghost function Restrict<K, V>(m: map<K, V>, keys: set<K>): map<K, V> {
    map k | k in m && k in keys :: m[k]
  }

  lemma TotalRestrict<K(!new)>(m: map<K, real>)
    ensures Total(Restrict(m, m.Keys)) == Total(m)
    ensures Total(Restrict(m, {})) == 0.0
  {
    assert Restrict(m, m.Keys) == m;
    TotalZero(Restrict(m, {}));
  }

  lemma TotalRestrictStep<K(!new)>(m: map<K, real>, keys: set<K>, k: K)
    requires k in m && k in keys
    ensures Total(Restrict(m, keys)) == m[k] + Total(Restrict(m, keys - {k}))
  {
    TotalSplit(Restrict(m, keys), k);
    assert Restrict(m, keys) - {k} == Restrict(m, keys - {k});
  }

  /** A map of zeros sums to zero. */
  lemma {:induction false} TotalZero<K(!new)>(m: map<K, real>)
    requires forall k :: k in m ==> m[k] == 0.0
    ensures Total(m) == 0.0
    decreases |m|
  {
    if m == map[] {
    } else {
      var k :| k in m;
      TotalSplit(m, k);
      SmallerWithout(m, k);
      TotalZero(m - {k});
    }
  }

  /** Sums add up key by key. */
  lemma {:induction false} TotalAdd<K(!new)>(a: map<K, real>, b: map<K, real>, c: map<K, real>)
    requires a.Keys == b.Keys == c.Keys
    requires forall k :: k in a ==> c[k] == a[k] + b[k]
    ensures Total(c) == Total(a) + Total(b)
    decreases |a|
  {
    if a == map[] {
      assert b == map[] && c == map[];
    } else {
      var k :| k in a;
      assert k in b && k in c;
      TotalSplit(a, k);
      TotalSplit(b, k);
      TotalSplit(c, k);
      SmallerWithout(a, k);
      TotalAdd(a - {k}, b - {k}, c - {k});
    }
  }

  /** Keys with value zero do not count. */
  lemma {:induction false} TotalOfNonZero<K(!new)>(m: map<K, real>, all: map<K, real>)
    requires m.Keys <= all.Keys
    requires forall k :: k in all ==> all[k] == GetOr(m, k, 0.0)
    ensures Total(all) == Total(m)
    decreases |all|
  {
    if m.Keys == all.Keys {
      assert m == all;
    } else {
      var k :| k in all && k !in m;
      TotalSplit(all, k);
      SmallerWithout(all, k);
      TotalOfNonZero(m, all - {k});
    }
  }

  /** The sum of `f` over a sequence. */
  function Sum<T>(s: seq<T>, f: T -> real): real {
    if s == [] then 0.0 else Sum(s[..|s| - 1], f) + f(s[|s| - 1])
  }

  lemma SumAppend<T>(s: seq<T>, x: T, f: T -> real)
    ensures Sum(s + [x], f) == Sum(s, f) + f(x)
  {
    assert (s + [x])[..|s|] == s;
  }

  lemma {:induction false} SumConcat<T>(s: seq<T>, t: seq<T>, f: T -> real)
    ensures Sum(s + t, f) == Sum(s, f) + Sum(t, f)
  {
    if t == [] {
      assert s + t == s;
    } else {
      var front, last := t[..|t| - 1], t[|t| - 1];
      assert s + t == (s + front) + [last] && t == front + [last];
      SumConcat(s, front, f);
      SumAppend(s + front, last, f);
      SumAppend(front, last, f);
    }
  }

  lemma {:induction false} SumPlus<T>(s: seq<T>, f: T -> real, g: T -> real, h: T -> real)
    requires forall i :: 0 <= i < |s| ==> h(s[i]) == f(s[i]) + g(s[i])
    ensures Sum(s, h) == Sum(s, f) + Sum(s, g)
  {
    if s == [] {
    } else {
      SumPlus(s[..|s| - 1], f, g, h);
    }
  }

  /** A sum of non-negative terms is zero exactly when every term is. */
  lemma {:induction false} SumOfNonNegative<T>(s: seq<T>, f: T -> real)
    requires forall i :: 0 <= i < |s| ==> f(s[i]) >= 0.0
    ensures Sum(s, f) >= 0.0
    ensures Sum(s, f) == 0.0 <==> forall i :: 0 <= i < |s| ==> f(s[i]) == 0.0
  {
    if s == [] {
    } else {
      SumOfNonNegative(s[..|s| - 1], f);
      assert forall i :: 0 <= i < |s| - 1 ==> s[..|s| - 1][i] == s[i];
    }
  }

  lemma {:induction false} SumUpdate<T>(s: seq<T>, i: nat, x: T, f: T -> real)
    requires i < |s|
    ensures Sum(s[i := x], f) == Sum(s, f) - f(s[i]) + f(x)
  {
    var front, last := s[..|s| - 1], |s| - 1;
    if i < last {
      SumUpdate(front, i, x, f);
      assert s[i := x][..last] == front[i := x];
    } else {
      assert s[i := x][..last] == front;
    }
  }
}
