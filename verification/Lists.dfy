/** Sequences, sums and orderings shared by the models of the pipeline.

    Lemmas proved by a written-out induction are marked {:induction false}, and so are those about recursive functions
    that Dafny would otherwise attempt by an induction of its own. */
module Lists {

  datatype Option<+T> = None | Some(value: T)

  /** The subsequence of `s` whose elements satisfy `p`. */
  function Filter<T>(s: seq<T>, p: T -> bool): seq<T> {
    if s == [] then []
    else
      var rest := Filter(s[..|s| - 1], p);
      if p(s[|s| - 1]) then rest + [s[|s| - 1]] else rest
  }

  lemma {:induction false} FilterMembers<T>(s: seq<T>, p: T -> bool)
    ensures |Filter(s, p)| <= |s|
    ensures forall x | x in Filter(s, p) :: x in s && p(x)
    ensures forall x | x in s && p(x) :: x in Filter(s, p)
  {
    if s != [] {
      FilterMembers(s[..|s| - 1], p);
      assert s == s[..|s| - 1] + [s[|s| - 1]];
    }
  }

  /** The sum of `f` over `s`. */
  function SumBy<T>(s: seq<T>, f: T -> real): real {
    if s == [] then 0.0 else SumBy(s[..|s| - 1], f) + f(s[|s| - 1])
  }

  lemma FilterSnoc<T>(s: seq<T>, x: T, p: T -> bool)
    ensures Filter(s + [x], p) == if p(x) then Filter(s, p) + [x] else Filter(s, p)
  {
    assert (s + [x])[..|s|] == s;
  }

  lemma {:induction false} FilterConcat<T>(a: seq<T>, b: seq<T>, p: T -> bool)
    ensures Filter(a + b, p) == Filter(a, p) + Filter(b, p)
  {
    if b == [] {
      assert a + b == a;
    } else {
      var m := |b| - 1;
      FilterConcat(a, b[..m], p);
      assert a + b == (a + b[..m]) + [b[m]];
      FilterSnoc(a + b[..m], b[m], p);
    }
  }

  /** Filtering commutes with conjunction of predicates. */
  lemma {:induction false} FilterAnd<T>(s: seq<T>, p: T -> bool, q: T -> bool, both: T -> bool)
    requires forall x :: x in s ==> both(x) == (p(x) && q(x))
    ensures Filter(s, both) == Filter(Filter(s, p), q)
  {
    if s != [] {
      var m := |s| - 1;
      FilterAnd(s[..m], p, q, both);
      if p(s[m]) {
        FilterSnoc(Filter(s[..m], p), s[m], q);
      }
    }
  }

  lemma {:induction false} FilterAll<T>(s: seq<T>, p: T -> bool)
    requires forall x :: x in s ==> p(x)
    ensures Filter(s, p) == s
  {
    if s != [] {
      var m := |s| - 1;
      FilterAll(s[..m], p);
      assert s == s[..m] + [s[m]];
    }
  }

  lemma {:induction false} FilterNone<T>(s: seq<T>, p: T -> bool)
    requires forall x :: x in s ==> !p(x)
    ensures Filter(s, p) == []
  {
    if s != [] {
      FilterNone(s[..|s| - 1], p);
    }
  }

  function Itself(): real -> real {
    (v: real) => v
  }

  lemma FilterUniform<T>(s: seq<T>, p: T -> bool, b: bool)
    requires forall x :: x in s ==> p(x) == b
    ensures Filter(s, p) == if b then s else []
  {
    if b {
      FilterAll(s, p);
    } else {
      FilterNone(s, p);
    }
  }

  /** When everything behind an accepted element is accepted, a filter keeps a suffix. */
  lemma {:induction false} FilterKeepsSuffix<T>(s: seq<T>, p: T -> bool)
    requires forall i, j :: 0 <= i < j < |s| && p(s[i]) ==> p(s[j])
    ensures |Filter(s, p)| <= |s|
    ensures Filter(s, p) == s[|s| - |Filter(s, p)|..]
  {
    if s != [] {
      var m := |s| - 1;
      FilterKeepsSuffix(s[..m], p);
      if p(s[m]) {
        var start := m - |Filter(s[..m], p)|;
        assert s[..m][start..] + [s[m]] == s[start..];
      } else {
        FilterNone(s[..m], p);
      }
    }
  }

  /** When everything before an accepted element is accepted, a filter keeps a prefix. */
  lemma {:induction false} FilterKeepsPrefix<T>(s: seq<T>, p: T -> bool)
    requires forall i, j :: 0 <= i < j < |s| && p(s[j]) ==> p(s[i])
    ensures Filter(s, p) <= s
  {
    if s != [] {
      var m := |s| - 1;
      FilterKeepsPrefix(s[..m], p);
      if p(s[m]) {
        FilterAll(s[..m], p);
      }
    }
  }

  lemma {:induction false} FilterCongruent<T>(s: seq<T>, p: T -> bool, q: T -> bool)
    requires forall x :: x in s ==> p(x) == q(x)
    ensures Filter(s, p) == Filter(s, q)
  {
    if s != [] {
      FilterCongruent(s[..|s| - 1], p, q);
    }
  }

  /** A filter keeps every occurrence of what it accepts and nothing else. */
  lemma {:induction false} FilterMultiplicity<T(!new)>(s: seq<T>, p: T -> bool, x: T)
    ensures multiset(Filter(s, p))[x] == if p(x) then multiset(s)[x] else 0
  {
    if s != [] {
      var m := |s| - 1;
      FilterMultiplicity(s[..m], p, x);
      assert s == s[..m] + [s[m]];
    }
  }

  lemma FilterPermutation<T(!new)>(s: seq<T>, t: seq<T>, p: T -> bool)
    requires multiset(s) == multiset(t)
    ensures multiset(Filter(s, p)) == multiset(Filter(t, p))
    ensures |Filter(s, p)| == |Filter(t, p)|
  {
    forall x: T
      ensures multiset(Filter(s, p))[x] == multiset(Filter(t, p))[x]
    {
      FilterMultiplicity(s, p, x);
      FilterMultiplicity(t, p, x);
    }
    assert multiset(Filter(s, p)) == multiset(Filter(t, p));
    assert |multiset(Filter(s, p))| == |multiset(Filter(t, p))|;
  }

  /** Every element satisfies exactly one of `p` and its negation. */
  lemma {:induction false} FilterPartition<T>(s: seq<T>, p: T -> bool, notP: T -> bool)
    requires forall x :: x in s ==> notP(x) == !p(x)
    ensures |Filter(s, p)| + |Filter(s, notP)| == |s|
  {
    if s != [] {
      FilterPartition(s[..|s| - 1], p, notP);
    }
  }

  /** Filtering a filtered list keeps no more of `q` than filtering the list itself. */
  lemma {:induction false} FilterOfFilter<T>(s: seq<T>, p: T -> bool, q: T -> bool)
    ensures |Filter(Filter(s, p), q)| <= |Filter(s, q)|
  {
    if s != [] {
      var m := |s| - 1;
      FilterOfFilter(s[..m], p, q);
      if p(s[m]) {
        FilterSnoc(Filter(s[..m], p), s[m], q);
      }
    }
  }

  /** A narrower filter keeps no more elements. */
  lemma {:induction false} FilterNarrower<T>(s: seq<T>, p: T -> bool, q: T -> bool)
    requires forall x :: x in s && p(x) ==> q(x)
    ensures |Filter(s, p)| <= |Filter(s, q)|
  {
    if s != [] {
      FilterNarrower(s[..|s| - 1], p, q);
    }
  }

  ghost predicate NoRepeats<T>(s: seq<T>) {
    forall i, j :: 0 <= i < j < |s| ==> s[i] != s[j]
  }

  lemma {:induction false} NoRepeatsCount<T>(s: seq<T>, x: T)
    requires NoRepeats(s)
    ensures multiset(s)[x] <= 1
  {
    if s != [] {
      var m := |s| - 1;
      NoRepeatsCount(s[..m], x);
      assert s == s[..m] + [s[m]];
      if s[m] == x {
        assert x !in s[..m];
        assert x !in multiset(s[..m]);
      }
    }
  }

  lemma RepeatCount<T>(s: seq<T>, i: nat, j: nat)
    requires i < j < |s| && s[i] == s[j]
    ensures multiset(s)[s[i]] >= 2
  {
    assert s == s[..j] + [s[j]] + s[j + 1..];
    assert s[i] == s[..j][i];
    assert s[i] in multiset(s[..j]);
  }

  /** A rearrangement of part of a list without repeats has none either. */
  lemma FilteredNoRepeats<T(!new)>(s: seq<T>, p: T -> bool, t: seq<T>)
    requires NoRepeats(s) && multiset(t) == multiset(Filter(s, p))
    ensures NoRepeats(t)
  {
    forall i, j | 0 <= i < j < |t|
      ensures t[i] != t[j]
    {
      FilterMultiplicity(s, p, t[i]);
      NoRepeatsCount(s, t[i]);
      if t[i] == t[j] {
        RepeatCount(t, i, j);
      }
    }
  }

  lemma SameMembers<T>(a: seq<T>, b: seq<T>)
    requires multiset(a) == multiset(b)
    ensures |a| == |b|
    ensures forall x | x in a :: x in b
    ensures forall x | x in b :: x in a
  {
    assert |multiset(a)| == |multiset(b)|;
    forall x | x in a
      ensures x in b
    {
      assert x in multiset(a);
    }
    forall x | x in b
      ensures x in a
    {
      assert x in multiset(b);
    }
  }

  lemma SubsetSize<T>(a: set<T>, b: set<T>)
    requires a <= b
    ensures |a| <= |b|
    ensures |a| == |b| ==> a == b
  {
    assert b == a + (b - a);
    assert |b| == |a| + |b - a|;
  }

  lemma SumSnoc<T>(s: seq<T>, x: T, f: T -> real)
    ensures SumBy(s + [x], f) == SumBy(s, f) + f(x)
  {
    assert (s + [x])[..|s|] == s;
  }

  /** A sum of non-negative terms is non-negative, and zero only if they all are. */
  lemma {:induction false} SumNonNegative<T>(s: seq<T>, f: T -> real)
    requires forall x :: x in s ==> f(x) >= 0.0
    ensures SumBy(s, f) >= 0.0
    ensures SumBy(s, f) == 0.0 ==> forall x :: x in s ==> f(x) == 0.0
  {
    if s != [] {
      var m := |s| - 1;
      SumNonNegative(s[..m], f);
      assert s == s[..m] + [s[m]];
    }
  }

  /** A sum of equal terms. */
  lemma {:induction false} SumUniform<T>(s: seq<T>, f: T -> real, v: real)
    requires forall x :: x in s ==> f(x) == v
    ensures SumBy(s, f) == |s| as real * v
  {
    if s != [] {
      var m := |s| - 1;
      assert s[m] in s;
      SumUniform(s[..m], f, v);
      assert |s| as real * v == m as real * v + v;
    }
  }

  lemma {:induction false} SumConcat<T>(a: seq<T>, b: seq<T>, f: T -> real)
    ensures SumBy(a + b, f) == SumBy(a, f) + SumBy(b, f)
  {
    if b == [] {
      assert a + b == a;
    } else {
      var m := |b| - 1;
      SumConcat(a, b[..m], f);
      assert a + b == (a + b[..m]) + [b[m]];
      SumSnoc(a + b[..m], b[m], f);
    }
  }

  /** Where the last element of `s` sits in a rearrangement `t`, and what is left without it. */
  lemma Withdraw<T>(s: seq<T>, t: seq<T>) returns (i: nat)
    requires s != [] && multiset(s) == multiset(t)
    ensures i < |t| && t[i] == s[|s| - 1]
    ensures t == t[..i] + [t[i]] + t[i + 1..]
    ensures multiset(s[..|s| - 1]) == multiset(t[..i] + t[i + 1..])
  {
    var m := |s| - 1;
    assert s == s[..m] + [s[m]];
    assert s[m] in multiset(t);
    i :| 0 <= i < |t| && t[i] == s[m];
    assert t == t[..i] + [t[i]] + t[i + 1..];
    assert multiset(t[..i] + t[i + 1..]) == multiset(t) - multiset{t[i]};
    assert multiset(s[..m]) == multiset(s) - multiset{s[m]};
  }

  /** A sum does not depend on the order of its terms. */
  lemma {:induction false} SumPermutation<T>(s: seq<T>, t: seq<T>, f: T -> real)
    requires multiset(s) == multiset(t)
    ensures SumBy(s, f) == SumBy(t, f)
    decreases |s|
  {
    if s == [] {
      assert |multiset(t)| == 0;
    } else {
      var i := Withdraw(s, t);
      SumPermutation(s[..|s| - 1], t[..i] + t[i + 1..], f);
      SumConcat(t[..i] + [t[i]], t[i + 1..], f);
      SumSnoc(t[..i], t[i], f);
      SumConcat(t[..i], t[i + 1..], f);
    }
  }

  /** Larger terms give a larger sum. */
  lemma {:induction false} SumOrder<T>(s: seq<T>, f: T -> real, g: T -> real)
    requires forall x :: x in s ==> f(x) <= g(x)
    ensures SumBy(s, f) <= SumBy(s, g)
  {
    if s != [] {
      SumOrder(s[..|s| - 1], f, g);
      assert s[|s| - 1] in s;
    }
  }

  /** A sum of terms in [lo, hi] lies in [n*lo, n*hi]. */
  lemma {:induction false} SumBounds<T>(s: seq<T>, f: T -> real, lo: real, hi: real)
    requires forall x :: x in s ==> lo <= f(x) <= hi
    ensures |s| as real * lo <= SumBy(s, f) <= |s| as real * hi
  {
    if s != [] {
      var m := |s| - 1;
      SumBounds(s[..m], f, lo, hi);
      assert |s| as real * lo == m as real * lo + lo;
      assert |s| as real * hi == m as real * hi + hi;
    }
  }

  function Abs(x: real): real {
    if x < 0.0 then -x else x
  }

  /** The larger of two recorded values; a missing one does not count. */
  function Higher(a: Option<real>, b: Option<real>): Option<real> {
    if a.None? then b else if b.None? then a else if a.value >= b.value then a else b
  }

  function Lower(a: Option<real>, b: Option<real>): Option<real> {
    if a.None? then b else if b.None? then a else if a.value <= b.value then a else b
  }

  /** Products are named so that proofs can treat them as atoms. */
  function Times(u: real, v: real): real {
    u * v
  }

  /** `a / n`, or 0 when nothing was counted. */
  function Ratio(a: real, n: nat): real {
    if n == 0 then 0.0 else a / n as real
  }

  /** The mean of terms in [lo, hi] lies in [lo, hi]. */
  lemma MeanBounds<T>(s: seq<T>, f: T -> real, lo: real, hi: real)
    requires |s| > 0
    requires forall x :: x in s ==> lo <= f(x) <= hi
    ensures lo <= Ratio(SumBy(s, f), |s|) <= hi
  {
    SumBounds(s, f, lo, hi);
    QuotientBounds(SumBy(s, f), |s| as real, lo, hi);
  }

  /** A share of a whole lies in [0, 1]. */
  lemma ShareBounds(part: nat, whole: nat)
    requires part <= whole
    ensures 0.0 <= Ratio(part as real, whole) <= 1.0
  {
    if whole > 0 {
      QuotientBounds(part as real, whole as real, 0.0, 1.0);
    }
  }

  lemma QuotientBounds(x: real, n: real, lo: real, hi: real)
    requires n > 0.0
    requires n * lo <= x <= n * hi
    ensures lo <= x / n <= hi
  {
    var q := x / n;
    assert q * n == x;
    if q < lo {
      ProductOrder(q, lo, n);
    }
    if hi < q {
      ProductOrder(hi, q, n);
    }
  }

  lemma ProductOrder(a: real, b: real, n: real)
    requires n > 0.0 && a < b
    ensures a * n < b * n
  {
  }

  lemma ProductPositive(u: real, v: real)
    requires u > 0.0 && v > 0.0
    ensures Times(u, v) > 0.0
  {
  }

  lemma SquareEven(d: real)
    ensures Times(-d, -d) == Times(d, d)
  {
  }

  /** A square is never negative, and zero only for zero. */
  lemma SquareNonNegative(d: real)
    ensures Times(d, d) >= 0.0
    ensures Times(d, d) == 0.0 <==> d == 0.0
  {
    if d > 0.0 {
      ProductPositive(d, d);
    } else if d < 0.0 {
      SquareEven(d);
      ProductPositive(-d, -d);
    }
  }

  lemma RatioSelf(n: nat)
    requires n > 0
    ensures Ratio(n as real, n) == 1.0
  {
  }

  /** A ratio of a non-negative amount is non-negative, and zero only for zero. */
  lemma RatioNonNegative(a: real, n: nat)
    requires a >= 0.0
    ensures Ratio(a, n) >= 0.0
    ensures n > 0 ==> (Ratio(a, n) == 0.0 <==> a == 0.0)
  {
    if n > 0 {
      QuotientOrder(0.0, a, n as real);
      QuotientOrder(a, 0.0, n as real);
    }
  }

  /** `a/n <= b/n` and `a/n < b/n` follow the numerators. */
  lemma QuotientOrder(a: real, b: real, n: real)
    requires n > 0.0
    ensures a <= b <==> a / n <= b / n
  {
    var p, q := a / n, b / n;
    assert p * n == a && q * n == b;
    if p < q {
      ProductOrder(p, q, n);
    } else if q < p {
      ProductOrder(q, p, n);
    }
  }
}

/** Insertion sort by a total preorder, and the uniqueness of its result. */
module Sorting {
  import opened Lists

  ghost predicate TotalPreorder<T(!new)>(le: (T, T) -> bool) {
    && (forall x, y :: le(x, y) || le(y, x))
    && (forall x, y, z :: le(x, y) && le(y, z) ==> le(x, z))
  }

  predicate Sorted<T>(s: seq<T>, le: (T, T) -> bool) {
    forall i, j :: 0 <= i < j < |s| ==> le(s[i], s[j])
  }

  function Insert<T>(x: T, s: seq<T>, le: (T, T) -> bool): seq<T> {
    if s == [] || le(x, s[0]) then [x] + s
    else [s[0]] + Insert(x, s[1..], le)
  }

  function Sort<T>(s: seq<T>, le: (T, T) -> bool): seq<T> {
    if s == [] then [] else Insert(s[0], Sort(s[1..], le), le)
  }

  lemma {:induction false} InsertPermutes<T>(x: T, s: seq<T>, le: (T, T) -> bool)
    ensures multiset(Insert(x, s, le)) == multiset{x} + multiset(s)
  {
    if s == [] || le(x, s[0]) {
    } else {
      InsertPermutes(x, s[1..], le);
      assert s == [s[0]] + s[1..];
    }
  }

  lemma {:induction false} InsertSorted<T(!new)>(x: T, s: seq<T>, le: (T, T) -> bool)
    requires TotalPreorder(le) && Sorted(s, le)
    ensures Sorted(Insert(x, s, le), le)
  {
    if s == [] || le(x, s[0]) {
    } else {
      InsertSorted(x, s[1..], le);
      var r := Insert(x, s[1..], le);
      InsertPermutes(x, s[1..], le);
      forall k | 0 <= k < |r|
        ensures le(s[0], r[k])
      {
        assert r[k] in multiset(r);
        assert r[k] == x || r[k] in multiset(s[1..]);
      }
    }
  }

  lemma {:induction false} SortPermutes<T>(s: seq<T>, le: (T, T) -> bool)
    ensures multiset(Sort(s, le)) == multiset(s)
  {
    if s != [] {
      SortPermutes(s[1..], le);
      InsertPermutes(s[0], Sort(s[1..], le), le);
      assert s == [s[0]] + s[1..];
    }
  }

  /** `Sort` yields a sorted permutation of its input. */
  lemma {:induction false} SortCorrect<T(!new)>(s: seq<T>, le: (T, T) -> bool)
    requires TotalPreorder(le)
    ensures Sorted(Sort(s, le), le)
    ensures multiset(Sort(s, le)) == multiset(s)
  {
    if s != [] {
      SortCorrect(s[1..], le);
      InsertSorted(s[0], Sort(s[1..], le), le);
      InsertPermutes(s[0], Sort(s[1..], le), le);
      assert s == [s[0]] + s[1..];
    }
  }

  /** Two sorted arrangements of the same elements agree when ties are equal elements. */
  lemma {:induction false} SortedUnique<T(!new)>(a: seq<T>, b: seq<T>, le: (T, T) -> bool)
    requires Sorted(a, le) && Sorted(b, le)
    requires multiset(a) == multiset(b)
    requires forall x, y :: x in a && y in a && le(x, y) && le(y, x) ==> x == y
    requires forall x :: x in a ==> le(x, x)
    ensures a == b
    decreases |a|
  {
    assert |multiset(a)| == |multiset(b)|;
    if a != [] {
      assert a[0] in multiset(b) && b[0] in multiset(a);
      assert le(a[0], b[0]) && le(b[0], a[0]);
      assert a == [a[0]] + a[1..] && b == [b[0]] + b[1..];
      assert multiset(a[1..]) == multiset(a) - multiset{a[0]};
      SortedUnique(a[1..], b[1..], le);
    }
  }

  lemma {:induction false} FilterSorted<T>(s: seq<T>, p: T -> bool, le: (T, T) -> bool)
    requires Sorted(s, le)
    ensures Sorted(Filter(s, p), le)
  {
    if s != [] {
      var m := |s| - 1;
      FilterSorted(s[..m], p, le);
      FilterMembers(s[..m], p);
      forall x | x in s[..m]
        ensures le(x, s[m])
      {
        var i :| 0 <= i < m && s[i] == x;
      }
    }
  }

  /** Filtering before or after an ORDER BY gives the same list. */
  lemma SortFilterCommute<T(!new)>(s: seq<T>, p: T -> bool, le: (T, T) -> bool)
    requires TotalPreorder(le)
    requires forall x, y :: x in s && y in s && le(x, y) && le(y, x) ==> x == y
    ensures Sort(Filter(s, p), le) == Filter(Sort(s, le), p)
  {
    SortCorrect(s, le);
    SortCorrect(Filter(s, p), le);
    FilterSorted(Sort(s, le), p, le);
    FilterPermutation(s, Sort(s, le), p);
    FilterMembers(s, p);
    SameMembers(Sort(Filter(s, p), le), Filter(s, p));
    SortedUnique(Sort(Filter(s, p), le), Filter(Sort(s, le), p), le);
  }

  /** An ORDER BY forgets the physical order of the rows. */
  lemma SortPermutation<T(!new)>(s: seq<T>, t: seq<T>, le: (T, T) -> bool)
    requires TotalPreorder(le)
    requires multiset(s) == multiset(t)
    requires forall x, y :: x in s && y in s && le(x, y) && le(y, x) ==> x == y
    ensures Sort(s, le) == Sort(t, le)
  {
    SortCorrect(s, le);
    SortCorrect(t, le);
    SameMembers(Sort(s, le), s);
    SortedUnique(Sort(s, le), Sort(t, le), le);
  }
}
