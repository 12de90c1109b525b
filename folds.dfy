/** The list comprehensions, generator sums and `Counter` folds the core is built from. */
module Folds {
  import opened Wrappers

  /** `[x for x in s if p(x)]`, keeping the order of `s`. */
  function Filter<T>(s: seq<T>, p: T -> bool): (r: seq<T>)
    ensures |r| <= |s|
    ensures forall i :: 0 <= i < |r| ==> r[i] in s && p(r[i])
    ensures forall i :: 0 <= i < |s| && p(s[i]) ==> s[i] in r
  {
    if s == [] then [] else (if p(s[0]) then [s[0]] else []) + Filter(s[1..], p)
  }

  /** The first element satisfying `p`, or `None`: a `find_one` over documents in natural order. */
  function FindFirst<T>(s: seq<T>, p: T -> bool): (r: Option<T>)
    ensures r.Some? <==> exists i :: 0 <= i < |s| && p(s[i])
    ensures r.Some? ==> r.value in s && p(r.value)
  {
    if s == [] then None else if p(s[0]) then Some(s[0]) else FindFirst(s[1..], p)
  }

  /** `sum(f(x) for x in s)` over Python ints. */
  function SumInt<T>(s: seq<T>, f: T -> int): int {
    if s == [] then 0 else f(s[0]) + SumInt(s[1..], f)
  }

  /** `sum(f(x) for x in s)` over Python floats, taken as exact reals. */
  function SumReal<T>(s: seq<T>, f: T -> real): real {
    if s == [] then 0.0 else f(s[0]) + SumReal(s[1..], f)
  }

  /** The number of elements satisfying `p`: what `Counter(...).get(key, 0)` reports. */
  function Count<T>(s: seq<T>, p: T -> bool): (n: nat)
    ensures n <= |s|
  {
    if s == [] then 0 else (if p(s[0]) then 1 else 0) + Count(s[1..], p)
  }

  /** A filtered list is as long as the number of elements its predicate accepts. */
  lemma {:induction false} FilterCount<T>(s: seq<T>, p: T -> bool)
    ensures |Filter(s, p)| == Count(s, p)
  {
    if s != [] {
      FilterCount(s[1..], p);
    }
  }

  /** Appending an element the predicate rejects does not change the filtered list. */
  lemma {:induction false} FilterSkipsRejected<T>(s: seq<T>, x: T, p: T -> bool)
    requires !p(x)
    ensures Filter(s + [x], p) == Filter(s, p)
  {
    if s == [] {
      assert [] + [x] == [x];
      assert [x][1..] == [];
    } else {
      assert (s + [x])[1..] == s[1..] + [x];
      FilterSkipsRejected(s[1..], x, p);
    }
  }

  lemma {:induction false} SumIntAppend<T>(a: seq<T>, b: seq<T>, f: T -> int)
    ensures SumInt(a + b, f) == SumInt(a, f) + SumInt(b, f)
  {
    if a == [] {
      assert a + b == b;
    } else {
      assert (a + b)[1..] == a[1..] + b;
      SumIntAppend(a[1..], b, f);
    }
  }

  lemma {:induction false} SumRealAppend<T>(a: seq<T>, b: seq<T>, f: T -> real)
    ensures SumReal(a + b, f) == SumReal(a, f) + SumReal(b, f)
  {
    if a == [] {
      assert a + b == b;
    } else {
      assert (a + b)[1..] == a[1..] + b;
      SumRealAppend(a[1..], b, f);
    }
  }

  /** Splits `b` around one occurrence of `a[0]`, leaving the rest a permutation of `a[1..]`. */
  lemma SplitAt<T>(a: seq<T>, b: seq<T>) returns (i: nat)
    requires a != [] && multiset(a) == multiset(b)
    ensures i < |b| && b[i] == a[0]
    ensures b == b[..i] + [a[0]] + b[i + 1..]
    ensures multiset(a[1..]) == multiset(b[..i] + b[i + 1..])
  {
    assert a == [a[0]] + a[1..];
    assert multiset(a) == multiset{a[0]} + multiset(a[1..]);
    assert a[0] in multiset(b);
    var k :| 0 <= k < |b| && b[k] == a[0];
    i := k;
    assert b == b[..i] + [a[0]] + b[i + 1..];
    assert multiset(b) == multiset(b[..i]) + multiset{a[0]} + multiset(b[i + 1..]);
    assert multiset(a[1..]) == multiset(b) - multiset{a[0]};
    assert multiset(b[..i] + b[i + 1..]) == multiset(b[..i]) + multiset(b[i + 1..]);
  }

  /** An integer sum does not depend on the order of the elements. */
  lemma {:induction false} SumIntPermutation<T>(a: seq<T>, b: seq<T>, f: T -> int)
    requires multiset(a) == multiset(b)
    ensures SumInt(a, f) == SumInt(b, f)
    decreases |a|
  {
    if a == [] {
      assert |b| == |multiset(b)| == 0;
    } else {
      var i := SplitAt(a, b);
      var rest := b[..i] + b[i + 1..];
      SumIntPermutation(a[1..], rest, f);
      SumIntAppend(b[..i], [a[0]] + b[i + 1..], f);
      SumIntAppend([a[0]], b[i + 1..], f);
      SumIntAppend(b[..i], b[i + 1..], f);
      assert b[..i] + [a[0]] + b[i + 1..] == b[..i] + ([a[0]] + b[i + 1..]);
    }
  }

  /** A real sum does not depend on the order of the elements. */
  lemma {:induction false} SumRealPermutation<T>(a: seq<T>, b: seq<T>, f: T -> real)
    requires multiset(a) == multiset(b)
    ensures SumReal(a, f) == SumReal(b, f)
    decreases |a|
  {
    if a == [] {
      assert |b| == |multiset(b)| == 0;
    } else {
      var i := SplitAt(a, b);
      var rest := b[..i] + b[i + 1..];
      SumRealPermutation(a[1..], rest, f);
      SumRealAppend(b[..i], [a[0]] + b[i + 1..], f);
      SumRealAppend([a[0]], b[i + 1..], f);
      SumRealAppend(b[..i], b[i + 1..], f);
      assert b[..i] + [a[0]] + b[i + 1..] == b[..i] + ([a[0]] + b[i + 1..]);
    }
  }

  /** Nothing satisfies `p`: the count is zero. */
  lemma {:induction false} CountNone<T>(s: seq<T>, p: T -> bool)
    requires forall i :: 0 <= i < |s| ==> !p(s[i])
    ensures Count(s, p) == 0
  {
    if s != [] {
      CountNone(s[1..], p);
    }
  }

  /** A count is the sum of the predicate's indicator. */
  lemma {:induction false} CountIsSum<T>(s: seq<T>, p: T -> bool)
    ensures Count(s, p) == SumInt(s, x => if p(x) then 1 else 0)
  {
    if s != [] {
      CountIsSum(s[1..], p);
    }
  }

  /** A count does not depend on the order of the elements. */
  lemma CountPermutation<T>(a: seq<T>, b: seq<T>, p: T -> bool)
    requires multiset(a) == multiset(b)
    ensures Count(a, p) == Count(b, p)
  {
    CountIsSum(a, p);
    CountIsSum(b, p);
    SumIntPermutation(a, b, x => if p(x) then 1 else 0);
  }

  /** Counts of three predicates that partition the elements add up to the length;
      in general they add up to at most the length. */
  lemma {:induction false} CountThree<T>(s: seq<T>, p: T -> bool, q: T -> bool, r: T -> bool)
    requires forall x :: !(p(x) && q(x)) && !(p(x) && r(x)) && !(q(x) && r(x))
    ensures Count(s, p) + Count(s, q) + Count(s, r) <= |s|
    ensures (forall x :: x in s ==> p(x) || q(x) || r(x))
            ==> Count(s, p) + Count(s, q) + Count(s, r) == |s|
  {
    if s != [] {
      CountThree(s[1..], p, q, r);
    }
  }

  /** The sum of all values of a map (the order of summation is immaterial). */
  ghost function MapSum<K>(m: map<K, int>): int
    decreases |m|
  {
    if m == map[] then 0
    else
      var k :| k in m;
      assert |m - {k}| == |m| - 1 by { assert (m - {k}).Keys == m.Keys - {k}; }
      m[k] + MapSum(m - {k})
  }

  /** Any key can be taken out of a map sum first. */
  lemma {:induction false} MapSumRemove<K>(m: map<K, int>, k: K)
    requires k in m
    ensures MapSum(m) == m[k] + MapSum(m - {k})
    decreases |m|
  {
    var j :| j in m && MapSum(m) == m[j] + MapSum(m - {j});
    if j != k {
      assert (m - {j}).Keys == m.Keys - {j};
      assert (m - {k}).Keys == m.Keys - {k};
      MapSumRemove(m - {j}, k);
      MapSumRemove(m - {k}, j);
      assert m - {j} - {k} == m - {k} - {j};
    }
  }
}
