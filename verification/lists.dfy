/** Sequences as the lists the research code folds over: filtering, mapping and summing, and what a
    reordering of the list leaves unchanged. */
module Lists {
  datatype Option<+T> = None | Some(value: T)

  function Lookup<K, V>(m: map<K, V>, k: K): Option<V> {
    if k in m then Some(m[k]) else None
  }

  function Abs(x: real): real { if x < 0.0 then -x else x }

  /** A product of two variables, named so that equal factors are seen to give equal products. */
  function Times(x: real, y: real): real { x * y }

  function MaxReal(x: real, y: real): real { if x < y then y else x }

  function MinReal(x: real, y: real): real { if y < x then y else x }

  function MinInt(x: int, y: int): int { if y < x then y else x }

  function MaxInt(x: int, y: int): int { if x < y then y else x }

  function Filter<T>(s: seq<T>, f: T -> bool): seq<T> {
    if s == [] then [] else
    Filter(s[..|s| - 1], f) + if f(s[|s| - 1]) then [s[|s| - 1]] else []
  }

  function Map<T, U>(s: seq<T>, f: T -> U): (r: seq<U>)
    ensures |r| == |s| && forall i :: 0 <= i < |s| ==> r[i] == f(s[i])
  {
    seq(|s|, i requires 0 <= i < |s| => f(s[i]))
  }

  function SumBy<T>(s: seq<T>, f: T -> real): real {
    if s == [] then 0.0 else SumBy(s[..|s| - 1], f) + f(s[|s| - 1])
  }

  lemma FilterSnoc<T>(s: seq<T>, x: T, f: T -> bool)
    ensures Filter(s + [x], f) == Filter(s, f) + if f(x) then [x] else []
  {
    assert (s + [x])[..|s|] == s;
  }

  lemma {:induction false} FilterMembers<T>(s: seq<T>, f: T -> bool)
    ensures forall x :: x in Filter(s, f) ==> x in s && f(x)
    ensures forall x :: x in s && f(x) ==> x in Filter(s, f)
  {
    if s != [] {
      FilterMembers(s[..|s| - 1], f);
      assert s == s[..|s| - 1] + [s[|s| - 1]];
    }
  }

  lemma {:induction false} FilterConcat<T>(a: seq<T>, b: seq<T>, f: T -> bool)
    ensures Filter(a + b, f) == Filter(a, f) + Filter(b, f)
  {
    if b == [] {
      assert a + b == a;
    } else {
      FilterConcat(a, b[..|b| - 1], f);
      assert (a + b)[..|a + b| - 1] == a + b[..|b| - 1];
    }
  }

  lemma {:induction false} FilterSame<T>(s: seq<T>, f: T -> bool, g: T -> bool)
    requires forall x :: x in s ==> f(x) == g(x)
    ensures Filter(s, f) == Filter(s, g)
  {
    if s != [] {
      FilterSame(s[..|s| - 1], f, g);
    }
  }

  lemma {:induction false} FilterTwice<T>(s: seq<T>, f: T -> bool, g: T -> bool, h: T -> bool)
    requires forall x :: x in s ==> h(x) == (f(x) && g(x))
    ensures Filter(Filter(s, f), g) == Filter(s, h)
  {
    if s != [] {
      var x := s[|s| - 1];
      assert x in s;
      FilterTwice(s[..|s| - 1], f, g, h);
      if f(x) {
        FilterSnoc(Filter(s[..|s| - 1], f), x, g);
      } else {
        assert Filter(s, f) == Filter(s[..|s| - 1], f);
      }
    }
  }

  /** Removing one element from two reorderings of one list leaves two reorderings. */
  lemma RemoveOne<T>(a: seq<T>, b: seq<T>) returns (k: nat)
    requires multiset(a) == multiset(b) && a != []
    ensures k < |b| && b[k] == a[|a| - 1]
    ensures b == b[..k] + [b[k]] + b[k + 1..]
    ensures multiset(a[..|a| - 1]) == multiset(b[..k] + b[k + 1..])
  {
    var n := |a| - 1;
    var x := a[n];
    SameMembers(a, b);
    assert x in a;
    k :| 0 <= k < |b| && b[k] == x;
    CutOne(a, n);
    CutOne(b, k);
    assert a[..n] + a[n + 1..] == a[..n];
  }

  lemma CutOne<T>(s: seq<T>, k: nat)
    requires k < |s|
    ensures s == s[..k] + [s[k]] + s[k + 1..]
    ensures multiset(s[..k] + s[k + 1..]) == multiset(s) - multiset{s[k]}
  {
    assert s == s[..k] + [s[k]] + s[k + 1..];
  }

  lemma {:induction false} FilterReordered<T>(a: seq<T>, b: seq<T>, f: T -> bool)
    requires multiset(a) == multiset(b)
    ensures multiset(Filter(a, f)) == multiset(Filter(b, f))
    ensures |Filter(a, f)| == |Filter(b, f)|
  {
    SameMembers(a, b);
    if a != [] {
      var k := RemoveOne(a, b);
      FilterReordered(a[..|a| - 1], b[..k] + b[k + 1..], f);
      FilterConcat(b[..k], b[k + 1..], f);
      FilterConcat(b[..k] + [b[k]], b[k + 1..], f);
      FilterSnoc(b[..k], b[k], f);
      var kept := if f(b[k]) then [b[k]] else [];
      assert Filter(b, f) == Filter(b[..k], f) + kept + Filter(b[k + 1..], f);
      assert multiset(Filter(b, f)) == multiset(Filter(b[..k] + b[k + 1..], f)) + multiset(kept);
    }
    SameMembers(Filter(a, f), Filter(b, f));
  }

  lemma SameMembers<T>(a: seq<T>, b: seq<T>)
    requires multiset(a) == multiset(b)
    ensures |a| == |b|
    ensures forall x :: x in a <==> x in b
  {
    assert |multiset(a)| == |multiset(b)|;
    forall x ensures x in a <==> x in b {
      assert x in a <==> x in multiset(a);
      assert x in b <==> x in multiset(b);
    }
  }

  lemma SumSnoc<T>(s: seq<T>, x: T, f: T -> real)
    ensures SumBy(s + [x], f) == SumBy(s, f) + f(x)
  {
    assert (s + [x])[..|s|] == s;
  }

  lemma {:induction false} SumConcat<T>(a: seq<T>, b: seq<T>, f: T -> real)
    ensures SumBy(a + b, f) == SumBy(a, f) + SumBy(b, f)
  {
    if b == [] {
      assert a + b == a;
    } else {
      SumConcat(a, b[..|b| - 1], f);
      assert (a + b)[..|a + b| - 1] == a + b[..|b| - 1];
    }
  }

  lemma FilterSumSnoc<T>(xs: seq<T>, x: T, g: T -> bool, h: T -> real)
    ensures SumBy(Filter(xs + [x], g), h) == SumBy(Filter(xs, g), h) + if g(x) then h(x) else 0.0
  {
    hide Filter, SumBy;
    FilterSnoc(xs, x, g);
    if g(x) {
      SumSnoc(Filter(xs, g), x, h);
    } else {
      assert Filter(xs, g) + [] == Filter(xs, g);
    }
  }

  /** A sum does not depend on the order of the list. */
  lemma {:induction false} SumReordered<T>(a: seq<T>, b: seq<T>, f: T -> real)
    requires multiset(a) == multiset(b)
    ensures SumBy(a, f) == SumBy(b, f)
  {
    SameMembers(a, b);
    if a != [] {
      var k := RemoveOne(a, b);
      SumReordered(a[..|a| - 1], b[..k] + b[k + 1..], f);
      SumConcat(b[..k], b[k + 1..], f);
      SumConcat(b[..k] + [b[k]], b[k + 1..], f);
      SumSnoc(b[..k], b[k], f);
    }
  }

  /** Two sums term by term within tol of each other are within |s| * tol. */
  lemma {:induction false} SumClose<T>(s: seq<T>, f: T -> real, g: T -> real, tol: real)
    requires forall x :: x in s ==> Abs(f(x) - g(x)) <= tol
    ensures Abs(SumBy(s, f) - SumBy(s, g)) <= Times(|s| as real, tol)
  {
    if s != [] {
      var n := |s| - 1;
      SumClose(s[..n], f, g, tol);
      TimesNext(n as real, tol);
      assert s[n] in s;
    }
  }

  lemma TimesNext(x: real, y: real)
    ensures Times(x + 1.0, y) == Times(x, y) + y
  {
  }

  lemma {:induction false} SumMapped<T, U>(s: seq<T>, f: T -> U, g: U -> real, h: T -> real)
    requires forall x :: x in s ==> g(f(x)) == h(x)
    ensures SumBy(Map(s, f), g) == SumBy(s, h)
  {
    if s != [] {
      SumMapped(s[..|s| - 1], f, g, h);
      assert Map(s, f)[..|s| - 1] == Map(s[..|s| - 1], f);
    }
  }

  lemma {:induction false} SumSame<T>(s: seq<T>, f: T -> real, g: T -> real)
    requires forall x :: x in s ==> f(x) == g(x)
    ensures SumBy(s, f) == SumBy(s, g)
  {
    if s != [] {
      SumSame(s[..|s| - 1], f, g);
    }
  }

  // ---------------------------------------------------------------- grouping by a key

  /** The elements of class k under the key function c. */
  function Is<T, K(==)>(c: T -> K, k: K): T -> bool { x => c(x) == k }

  function Get<K, V>(m: map<K, seq<V>>, k: K): seq<V> {
    if k in m then m[k] else []
  }

  /** Appending to a dictionary of lists. */
  function Push<K, V>(m: map<K, seq<V>>, k: K, v: V): map<K, seq<V>> {
    m[k := Get(m, k) + [v]]
  }

  ghost predicate Grouped<T, K(!new)>(m: map<K, seq<T>>, s: seq<T>, c: T -> K) {
    forall k :: Get(m, k) == Filter(s, Is(c, k))
  }

  lemma GroupStep<T, K(!new)>(m: map<K, seq<T>>, s: seq<T>, c: T -> K, x: T)
    requires Grouped(m, s, c)
    ensures Grouped(Push(m, c(x), x), s + [x], c)
  {
    forall k ensures Get(Push(m, c(x), x), k) == Filter(s + [x], Is(c, k)) {
      FilterSnoc(s, x, Is(c, k));
    }
  }

  predicate Distinct<T(==)>(s: seq<T>) {
    forall i, j :: 0 <= i < j < |s| ==> s[i] != s[j]
  }

  /** The keys of a dictionary, in some order. */
  method DictKeys<K, V>(m: map<K, V>) returns (keys: seq<K>)
    ensures Distinct(keys)
    ensures forall k :: k in keys <==> k in m
  {
    keys := [];
    var todo := m.Keys;
    while todo != {}
      invariant todo <= m.Keys
      invariant Distinct(keys)
      invariant forall k :: k in keys <==> k in m && k !in todo
      decreases todo
    {
      var k :| k in todo;
      keys := keys + [k];
      todo := todo - {k};
    }
  }

  function Keep<T>(s: set<T>, f: T -> bool): set<T> { set x | x in s && f(x) }

  /** Counting over distinct keys is counting over the set of them. */
  lemma {:induction false} FilterIsKeep<T>(keys: seq<T>, s: set<T>, f: T -> bool)
    requires Distinct(keys) && forall k :: k in keys <==> k in s
    ensures |Filter(keys, f)| == |Keep(s, f)|
  {
    if keys == [] {
      assert Keep(s, f) == {};
    } else {
      var n := |keys| - 1;
      var x := keys[n];
      assert keys == keys[..n] + [x];
      FilterIsKeep(keys[..n], s - {x}, f);
      KeepRemove(s, x, f);
    }
  }

  lemma KeepRemove<T>(s: set<T>, x: T, f: T -> bool)
    requires x in s
    ensures |Keep(s, f)| == |Keep(s - {x}, f)| + if f(x) then 1 else 0
  {
    assert Keep(s, f) == Keep(s - {x}, f) + if f(x) then {x} else {};
  }

  function SumNat<T>(s: seq<T>, f: T -> nat): nat {
    if s == [] then 0 else SumNat(s[..|s| - 1], f) + f(s[|s| - 1])
  }

  function AnyOf<T, K(==)>(c: T -> K, keys: seq<K>): T -> bool { x => c(x) in keys }

  function ClassCount<T, K(==)>(s: seq<T>, c: T -> K): K -> nat { k => |Filter(s, Is(c, k))| }

  lemma {:induction false} FilterDisjoint<T>(s: seq<T>, f: T -> bool, g: T -> bool, h: T -> bool)
    requires forall x :: x in s ==> h(x) == (f(x) || g(x)) && !(f(x) && g(x))
    ensures |Filter(s, h)| == |Filter(s, f)| + |Filter(s, g)|
  {
    if s != [] {
      var x := s[|s| - 1];
      assert x in s;
      FilterDisjoint(s[..|s| - 1], f, g, h);
    }
  }

  /** The sizes of the classes of distinct keys add up to the number of elements in any of them. */
  lemma {:induction false} Partition<T, K>(s: seq<T>, c: T -> K, keys: seq<K>)
    requires Distinct(keys)
    ensures SumNat(keys, ClassCount(s, c)) == |Filter(s, AnyOf(c, keys))|
  {
    if keys == [] {
      NoneKept(s, AnyOf(c, keys));
    } else {
      var n := |keys| - 1;
      assert keys == keys[..n] + [keys[n]];
      Partition(s, c, keys[..n]);
      FilterDisjoint(s, AnyOf(c, keys[..n]), Is(c, keys[n]), AnyOf(c, keys));
    }
  }

  lemma {:induction false} NoneKept<T>(s: seq<T>, f: T -> bool)
    requires forall x :: x in s ==> !f(x)
    ensures Filter(s, f) == []
  {
    if s != [] {
      NoneKept(s[..|s| - 1], f);
    }
  }

  lemma {:induction false} AllKept<T>(s: seq<T>, f: T -> bool)
    requires forall x :: x in s ==> f(x)
    ensures Filter(s, f) == s
  {
    if s != [] {
      assert s == s[..|s| - 1] + [s[|s| - 1]] && s[|s| - 1] in s;
      AllKept(s[..|s| - 1], f);
    }
  }

  // ---------------------------------------------------------------- distinct keys

  predicate DistinctBy<T, K(==)>(s: seq<T>, key: T -> K) {
    forall i, j :: 0 <= i < j < |s| ==> key(s[i]) != key(s[j])
  }

  lemma {:induction false} DistinctReordered<T, K>(a: seq<T>, b: seq<T>, key: T -> K)
    requires multiset(a) == multiset(b) && DistinctBy(b, key)
    ensures DistinctBy(a, key)
  {
    SameMembers(a, b);
    if a != [] {
      var n := |a| - 1;
      var k := RemoveOne(a, b);
      var rest := b[..k] + b[k + 1..];
      assert DistinctBy(rest, key) by {
        assert forall i :: 0 <= i < |rest| ==> rest[i] == b[if i < k then i else i + 1];
      }
      DistinctReordered(a[..n], rest, key);
      SameMembers(a[..n], rest);
      forall i | 0 <= i < n ensures key(a[i]) != key(a[n]) {
        assert a[..n][i] in rest;
        OtherKey(b, k, a[i], key);
      }
    }
  }

  lemma OtherKey<T, K>(b: seq<T>, k: nat, x: T, key: T -> K)
    requires DistinctBy(b, key) && k < |b| && x in b[..k] + b[k + 1..]
    ensures key(x) != key(b[k])
  {
    var rest := b[..k] + b[k + 1..];
    var j :| 0 <= j < |rest| && rest[j] == x;
    assert rest[j] == b[if j < k then j else j + 1];
  }

  lemma DistinctConcat<T, K>(a: seq<T>, b: seq<T>, key: T -> K)
    requires DistinctBy(a, key) && DistinctBy(b, key)
    requires forall x, y :: x in a && y in b ==> key(x) != key(y)
    ensures DistinctBy(a + b, key)
  {
    forall i, j | 0 <= i < j < |a + b| ensures key((a + b)[i]) != key((a + b)[j]) {
      if j < |a| {
        assert key(a[i]) != key(a[j]);
      } else if i >= |a| {
        assert key(b[i - |a|]) != key(b[j - |a|]);
      } else {
        assert a[i] in a && b[j - |a|] in b;
      }
    }
  }

  lemma {:induction false} FilterDistinct<T, K>(s: seq<T>, f: T -> bool, key: T -> K)
    requires DistinctBy(s, key)
    ensures DistinctBy(Filter(s, f), key)
  {
    if s != [] {
      var n := |s| - 1;
      FilterDistinct(s[..n], f, key);
      FilterMembers(s[..n], f);
      forall i | 0 <= i < |Filter(s[..n], f)| ensures key(Filter(s[..n], f)[i]) != key(s[n]) {
        assert Filter(s[..n], f)[i] in Filter(s[..n], f);
        var x := Filter(s[..n], f)[i];
        assert x in Filter(s[..n], f);
        assert x in s[..n];
        var j :| 0 <= j < n && s[..n][j] == x;
        assert key(s[j]) != key(s[n]);
      }
    }
  }

  function KeySet<T, K(==)>(s: seq<T>, key: T -> K): set<K> {
    set i | 0 <= i < |s| :: key(s[i])
  }

  lemma KeySetStep<T, K>(s: seq<T>, key: T -> K)
    requires s != []
    ensures KeySet(s, key) == KeySet(s[..|s| - 1], key) + {key(s[|s| - 1])}
  {
    var n := |s| - 1;
    forall k | k in KeySet(s, key) ensures k in KeySet(s[..n], key) + {key(s[n])} {
      var i :| 0 <= i <= n && key(s[i]) == k;
      assert i < n ==> s[..n][i] == s[i];
    }
    assert forall i :: 0 <= i < n ==> s[..n][i] == s[i];
  }

  /** Keys are distinct exactly when there are as many of them as elements. */
  lemma {:induction false} DistinctCount<T, K>(s: seq<T>, key: T -> K)
    ensures |KeySet(s, key)| <= |s|
    ensures |KeySet(s, key)| == |s| <==> DistinctBy(s, key)
  {
    if s == [] {
      assert KeySet(s, key) == {};
    } else {
      var n := |s| - 1;
      var before := KeySet(s[..n], key);
      DistinctCount(s[..n], key);
      KeySetStep(s, key);
      NewKey(s, key);
      OneMoreKey(before, key(s[n]));
    }
  }

  lemma OneMoreKey<K>(keys: set<K>, k: K)
    ensures |keys + {k}| == |keys| + if k in keys then 0 else 1
  {
    if k in keys {
      assert keys + {k} == keys;
    }
  }

  lemma NewKey<T, K>(s: seq<T>, key: T -> K)
    requires s != []
    ensures var n := |s| - 1;
      DistinctBy(s, key) <==> DistinctBy(s[..n], key) && key(s[n]) !in KeySet(s[..n], key)
  {
    var n := |s| - 1;
    var front := s[..n];
    forall i | 0 <= i < n ensures key(s[i]) in KeySet(front, key) && front[i] == s[i] {
      assert key(front[i]) in KeySet(front, key);
    }
  }

  lemma RemoveAt<T>(b: seq<T>, k: nat)
    requires k < |b| && Distinct(b)
    ensures var rest := b[..k] + b[k + 1..];
      && Distinct(rest)
      && (forall x :: x in rest <==> x in b && x != b[k])
      && multiset(b) == multiset(rest) + multiset{b[k]}
  {
    var rest := b[..k] + b[k + 1..];
    assert b == b[..k] + [b[k]] + b[k + 1..];
    assert forall i :: 0 <= i < |rest| ==> rest[i] == b[if i < k then i else i + 1];
    forall x | x in rest ensures x in b && x != b[k] {
      var i :| 0 <= i < |rest| && rest[i] == x;
      assert x == b[if i < k then i else i + 1];
    }
    assert forall x :: x in b ==> x in b[..k] || x == b[k] || x in b[k + 1..];
  }

  lemma HeadMember<T>(s: seq<T>)
    ensures s == [] || exists x :: x in s
  {
    if s != [] {
      assert s[0] in s;
    }
  }

  /** Two lists without repeats and with the same members are reorderings of each other. */
  lemma {:induction false} SameSetReordered<T>(a: seq<T>, b: seq<T>)
    requires Distinct(a) && Distinct(b)
    requires forall x :: x in a <==> x in b
    ensures multiset(a) == multiset(b)
  {
    if a == [] {
      HeadMember(b);
    } else {
      assert a[0] in b;
      var k :| 0 <= k < |b| && b[k] == a[0];
      RemoveAt(a, 0);
      RemoveAt(b, k);
      SameSetReordered(a[..0] + a[1..], b[..k] + b[k + 1..]);
    }
  }
}
