/** Counting, summing, de-duplicating and ranking over sequences: the reference
    definitions that the source's `forEach` loops, `filter(...).length`,
    `reduce(+)`, keyed objects and `sort` calls are compared against. */
module Tally {

  /** `f` applied to each element of `s`, in order (`s.map(f)`). */
  function MapSeq<A, B>(s: seq<A>, f: A -> B): (r: seq<B>)
    ensures |r| == |s|
    ensures forall i :: 0 <= i < |s| ==> r[i] == f(s[i])
  {
    seq(|s|, i requires 0 <= i < |s| => f(s[i]))
  }

  /** The number of elements of `s` satisfying `p` (`s.filter(p).length`). */
  function CountWhere<T>(s: seq<T>, p: T -> bool): (n: nat)
    ensures n <= |s|
  {
    if |s| == 0 then 0 else (if p(s[0]) then 1 else 0) + CountWhere(s[1..], p)
  }

  /** The sum of `f` over the elements of `s` satisfying `p`. */
  function SumWhere<T>(s: seq<T>, p: T -> bool, f: T -> real): real {
    if |s| == 0 then 0.0 else (if p(s[0]) then f(s[0]) else 0.0) + SumWhere(s[1..], p, f)
  }

  /** The elements of `s` satisfying `p`, in order (`s.filter(p)`). */
  function Filter<T>(s: seq<T>, p: T -> bool): (r: seq<T>)
    ensures |r| == CountWhere(s, p)
    ensures forall i :: 0 <= i < |r| ==> p(r[i]) && r[i] in s
  {
    if |s| == 0 then [] else (if p(s[0]) then [s[0]] else []) + Filter(s[1..], p)
  }

  /** An element is kept by `Filter` exactly when it is in `s` and satisfies `p`. */
  lemma {:induction false} FilterMembership<T>(s: seq<T>, p: T -> bool, x: T)
    ensures x in Filter(s, p) <==> x in s && p(x)
    decreases |s|
  {
    if |s| > 0 {
      FilterMembership(s[1..], p, x);
      assert x in s <==> x == s[0] || x in s[1..];
    }
  }

  lemma {:induction false} CountAppend<T>(a: seq<T>, b: seq<T>, p: T -> bool)
    ensures CountWhere(a + b, p) == CountWhere(a, p) + CountWhere(b, p)
    decreases |a|
  {
    if |a| > 0 {
      assert (a + b)[1..] == a[1..] + b;
      CountAppend(a[1..], b, p);
    } else {
      assert a + b == b;
    }
  }

  lemma {:induction false} SumAppend<T>(a: seq<T>, b: seq<T>, p: T -> bool, f: T -> real)
    ensures SumWhere(a + b, p, f) == SumWhere(a, p, f) + SumWhere(b, p, f)
    decreases |a|
  {
    if |a| > 0 {
      assert (a + b)[1..] == a[1..] + b;
      SumAppend(a[1..], b, p, f);
    } else {
      assert a + b == b;
    }
  }

  /** A count over `p` splits into counts over two disjoint predicates covering `p`. */
  lemma {:induction false} CountSplit<T>(s: seq<T>, p: T -> bool, q: T -> bool, r: T -> bool)
    requires forall i :: 0 <= i < |s| ==> (p(s[i]) <==> q(s[i]) || r(s[i]))
    requires forall i :: 0 <= i < |s| ==> !(q(s[i]) && r(s[i]))
    ensures CountWhere(s, p) == CountWhere(s, q) + CountWhere(s, r)
    decreases |s|
  {
    if |s| > 0 {
      CountSplit(s[1..], p, q, r);
    }
  }

  /** Counts taken with predicates that agree on `s` are equal. */
  lemma {:induction false} CountCongruent<T>(s: seq<T>, p: T -> bool, q: T -> bool)
    requires forall i :: 0 <= i < |s| ==> (p(s[i]) <==> q(s[i]))
    ensures CountWhere(s, p) == CountWhere(s, q)
    decreases |s|
  {
    if |s| > 0 {
      CountCongruent(s[1..], p, q);
    }
  }

  /** A count is zero exactly when no element satisfies the predicate. */
  lemma {:induction false} CountZero<T>(s: seq<T>, p: T -> bool)
    ensures CountWhere(s, p) == 0 <==> forall i :: 0 <= i < |s| ==> !p(s[i])
    decreases |s|
  {
    if |s| > 0 {
      CountZero(s[1..], p);
      assert forall i :: 1 <= i < |s| ==> s[i] == s[1..][i - 1];
    }
  }

  /** The number of occurrences of `x` in `s`, counted from the back. */
  function Occ<T(==)>(s: seq<T>, x: T): nat {
    if |s| == 0 then 0 else Occ(s[..|s| - 1], x) + (if s[|s| - 1] == x then 1 else 0)
  }

  lemma OccSnoc<T>(s: seq<T>, y: T, x: T)
    ensures Occ(s + [y], x) == Occ(s, x) + (if y == x then 1 else 0)
  {
    assert (s + [y])[..|s|] == s;
  }

  lemma {:induction false} OccAbsent<T>(s: seq<T>, x: T)
    requires x !in s
    ensures Occ(s, x) == 0
    decreases |s|
  {
    if |s| > 0 {
      OccAbsent(s[..|s| - 1], x);
    }
  }

  predicate NoDuplicates<T(==)>(s: seq<T>) {
    forall i, j :: 0 <= i < j < |s| ==> s[i] != s[j]
  }

  lemma {:induction false} OccInDistinct<T>(s: seq<T>, x: T)
    requires NoDuplicates(s) && x in s
    ensures Occ(s, x) == 1
    decreases |s|
  {
    var init := s[..|s| - 1];
    if s[|s| - 1] == x {
      OccAbsent(init, x);
    } else {
      assert x in init;
      OccInDistinct(init, x);
    }
  }

  /** The distinct elements of `s` in order of first occurrence. */
  function Distinct<T(==)>(s: seq<T>): (r: seq<T>)
    ensures NoDuplicates(r)
    ensures forall i :: 0 <= i < |r| ==> r[i] in s
    ensures forall i :: 0 <= i < |s| ==> s[i] in r
  {
    if |s| == 0 then []
    else
      var init := Distinct(s[..|s| - 1]);
      var last := s[|s| - 1];
      assert s == s[..|s| - 1] + [last];
      if last in init then init else init + [last]
  }

  /** Total occurrences in `s` of the keys `ks`, summed from the back. */
  function SumOcc<T(==)>(ks: seq<T>, s: seq<T>): nat {
    if |ks| == 0 then 0 else SumOcc(ks[..|ks| - 1], s) + Occ(s, ks[|ks| - 1])
  }

  lemma {:induction false} SumOccSnoc<T>(ks: seq<T>, s: seq<T>, y: T)
    ensures SumOcc(ks, s + [y]) == SumOcc(ks, s) + Occ(ks, y)
    decreases |ks|
  {
    if |ks| > 0 {
      SumOccSnoc(ks[..|ks| - 1], s, y);
      OccSnoc(s, y, ks[|ks| - 1]);
    }
  }

  /** Counting every distinct element once accounts for every element of `s`. */
  lemma {:induction false} DistinctOccSum<T>(s: seq<T>)
    ensures SumOcc(Distinct(s), s) == |s|
    decreases |s|
  {
    if |s| > 0 {
      var init := s[..|s| - 1];
      var y := s[|s| - 1];
      var d := Distinct(init);
      assert s == init + [y];
      DistinctOccSum(init);
      SumOccSnoc(d, init, y);
      if y in d {
        OccInDistinct(d, y);
      } else {
        OccAbsent(d, y);
        OccAbsent(init, y);
        OccSnoc(init, y, y);
        assert d + [y] == Distinct(s);
        assert (d + [y])[..|d|] == d;
      }
    }
  }

  /** `s` is ordered by `key`, largest first. */
  predicate SortedDesc<T>(s: seq<T>, key: T -> real) {
    forall i, j :: 0 <= i < j < |s| ==> key(s[i]) >= key(s[j])
  }

  function SumKey<T>(s: seq<T>, key: T -> real): real {
    if |s| == 0 then 0.0 else key(s[0]) + SumKey(s[1..], key)
  }

  lemma {:induction false} SumKeyAppend<T>(a: seq<T>, b: seq<T>, key: T -> real)
    ensures SumKey(a + b, key) == SumKey(a, key) + SumKey(b, key)
    decreases |a|
  {
    if |a| > 0 {
      assert (a + b)[1..] == a[1..] + b;
      SumKeyAppend(a[1..], b, key);
    } else {
      assert a + b == b;
    }
  }

  /** Summing over `Filter(s, p)` is summing over the elements of `s` satisfying `p`. */
  lemma {:induction false} SumKeyFilter<T>(s: seq<T>, p: T -> bool, f: T -> real)
    ensures SumKey(Filter(s, p), f) == SumWhere(s, p, f)
    decreases |s|
  {
    if |s| > 0 {
      SumKeyFilter(s[1..], p, f);
      SumKeyAppend(if p(s[0]) then [s[0]] else [], Filter(s[1..], p), f);
    }
  }

  /** Inserts `x` before the first element whose key is no larger than its own, so `x`
      goes in front of the elements whose key equals its key. */
  function InsertDesc<T(==)>(x: T, s: seq<T>, key: T -> real): (r: seq<T>)
    ensures |r| == |s| + 1
    ensures multiset(r) == multiset(s) + multiset{x}
    ensures SumKey(r, key) == key(x) + SumKey(s, key)
  {
    if |s| == 0 || key(x) >= key(s[0]) then [x] + s
    else
      assert s == [s[0]] + s[1..];
      [s[0]] + InsertDesc(x, s[1..], key)
  }

  lemma {:induction false} InsertDescSorted<T>(x: T, s: seq<T>, key: T -> real)
    requires SortedDesc(s, key)
    ensures SortedDesc(InsertDesc(x, s, key), key)
    decreases |s|
  {
    if |s| > 0 && key(x) < key(s[0]) {
      var t := InsertDesc(x, s[1..], key);
      InsertDescSorted(x, s[1..], key);
      forall j | 0 <= j < |t|
        ensures key(s[0]) >= key(t[j])
      {
        assert t[j] in multiset(s[1..]) + multiset{x};
        if t[j] != x {
          assert t[j] in s[1..];
          var k :| 0 <= k < |s[1..]| && s[1..][k] == t[j];
          assert s[k + 1] == t[j];
        }
      }
    }
  }

  /** A stable sort by `key`, largest first: the model of
      `array.sort((a, b) => key(b) - key(a))`. Elements are inserted from the back, so
      of two elements with equal keys the earlier one is inserted later, in front. */
  function SortDesc<T(==)>(s: seq<T>, key: T -> real): (r: seq<T>)
    ensures |r| == |s|
    ensures multiset(r) == multiset(s)
    ensures SortedDesc(r, key)
    ensures SumKey(r, key) == SumKey(s, key)
  {
    if |s| == 0 then []
    else
      assert s == [s[0]] + s[1..];
      var t := SortDesc(s[1..], key);
      InsertDescSorted(s[0], t, key);
      InsertDesc(s[0], t, key)
  }
}
