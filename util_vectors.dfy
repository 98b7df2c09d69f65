/** The vector statistics of src/Util.cpp: `vector_mean`, `vector_median` (an
    in-place `nth_element`) and `vector_standard_deviation`. Values are reals;
    the square root is the uninterpreted one of `Numerics`. */
module UtilVectors {
  import opened Foreign

  /** One summand of an accumulation: the value itself, or its squared
      distance from `centre`. */
  function Term(x: real, centre: real, squared: bool): real
  {
    if squared then (x - centre) * (x - centre) else x
  }

  /** Left-to-right accumulation of the terms of `v`, as `std::accumulate`
      and the `buf +=` loop do it. */
  function Accumulate(v: seq<real>, centre: real, squared: bool): real
  {
    if |v| == 0 then 0.0
    else Accumulate(v[..|v| - 1], centre, squared) + Term(v[|v| - 1], centre, squared)
  }

  function Sum(v: seq<real>): real
  {
    Accumulate(v, 0.0, false)
  }

  /** The sum of squared deviations from `mean`. */
  function SquaredDeviations(v: seq<real>, mean: real): real
  {
    Accumulate(v, mean, true)
  }

  /** `vector_mean`: the sum divided by the size, so the vector must not be
      empty. The mean times the size gives back the sum, and the mean of a
      single value is that value. */
  function VectorMean(v: seq<real>): (m: real)
    requires |v| > 0
    ensures m * (|v| as real) == Sum(v)
    ensures |v| == 1 ==> m == v[0]
  {
    assert |v| == 1 ==> Sum(v) == Sum([]) + Term(v[0], 0.0, false) by {
      if |v| == 1 {
        assert v[..0] == [];
      }
    }
    Sum(v) / |v| as real
  }

  /** What `vector_standard_deviation` returns: the population form, dividing by
      the size and not by the size minus one. */
  function PopulationStdDev(v: seq<real>, num: Numerics): real
    requires |v| > 0
  {
    num.sqrt(SquaredDeviations(v, VectorMean(v)) / |v| as real)
  }

  lemma {:induction false} AccumulateConcat(a: seq<real>, b: seq<real>, centre: real, squared: bool)
    ensures Accumulate(a + b, centre, squared) == Accumulate(a, centre, squared) + Accumulate(b, centre, squared)
    decreases |b|
  {
    if |b| == 0 {
      assert a + b == a;
    } else {
      var b' := b[..|b| - 1];
      assert (a + b)[..|a + b| - 1] == a + b';
      AccumulateConcat(a, b', centre, squared);
    }
  }

  /** Accumulating does not depend on the order of the elements. */
  lemma {:induction false} AccumulatePermutation(v: seq<real>, w: seq<real>, centre: real, squared: bool)
    requires multiset(v) == multiset(w)
    ensures Accumulate(v, centre, squared) == Accumulate(w, centre, squared)
    decreases |v|
  {
    if |v| == 0 {
      assert |w| == |multiset(w)| == 0;
    } else {
      var x := v[|v| - 1];
      var v' := v[..|v| - 1];
      assert v == v' + [x];
      assert x in multiset(w);
      var j :| 0 <= j < |w| && w[j] == x;
      var w' := w[..j] + w[j + 1..];
      assert w == w[..j] + [x] + w[j + 1..];
      assert multiset(w') == multiset(w) - multiset{x};
      assert multiset(v') == multiset(v) - multiset{x};
      AccumulatePermutation(v', w', centre, squared);
      AccumulateConcat(w[..j] + [x], w[j + 1..], centre, squared);
      AccumulateConcat(w[..j], [x], centre, squared);
      AccumulateConcat(w[..j], w[j + 1..], centre, squared);
      assert Accumulate([x], centre, squared) == Term(x, centre, squared) by {
        assert [x][..0] == [];
      }
    }
  }

  lemma {:induction false} SumBounds(v: seq<real>, lo: real, hi: real)
    requires forall i :: 0 <= i < |v| ==> lo <= v[i] <= hi
    ensures |v| as real * lo <= Sum(v) <= |v| as real * hi
  {
    if |v| > 0 {
      SumBounds(v[..|v| - 1], lo, hi);
    }
  }

  /** The mean lies between any lower and upper bound of the elements. */
  lemma MeanWithinRange(v: seq<real>, lo: real, hi: real)
    requires |v| > 0
    requires forall i :: 0 <= i < |v| ==> lo <= v[i] <= hi
    ensures lo <= VectorMean(v) <= hi
  {
    SumBounds(v, lo, hi);
    var n := |v| as real;
    assert lo * n <= Sum(v) <= hi * n;
    assert Sum(v) / n >= lo by {
      assert Sum(v) / n * n == Sum(v);
    }
    assert Sum(v) / n <= hi by {
      assert Sum(v) / n * n == Sum(v);
    }
  }

  /** The radicand of the standard deviation is never negative. */
  lemma {:induction false} SquaredDeviationsNonNegative(v: seq<real>, mean: real)
    ensures SquaredDeviations(v, mean) >= 0.0
  {
    if |v| > 0 {
      SquaredDeviationsNonNegative(v[..|v| - 1], mean);
    }
  }

  /** Mean and standard deviation of a reordered vector are those of the original. */
  lemma StatisticsPermutation(v: seq<real>, w: seq<real>, num: Numerics)
    requires |v| > 0
    requires multiset(v) == multiset(w)
    ensures |w| == |v|
    ensures VectorMean(w) == VectorMean(v)
    ensures PopulationStdDev(w, num) == PopulationStdDev(v, num)
  {
    assert |w| == |multiset(w)| == |multiset(v)| == |v|;
    AccumulatePermutation(v, w, 0.0, false);
    AccumulatePermutation(v, w, VectorMean(v), true);
  }

  /** `vector_standard_deviation(v)`: accumulates the squared deviations from
      the mean in `buf`, then takes the root of `buf / size`. */
  method VectorStandardDeviation(v: seq<real>, num: Numerics) returns (sd: real)
    requires |v| > 0
    ensures sd == PopulationStdDev(v, num)
    ensures sd == num.sqrt(SquaredDeviations(v, VectorMean(v)) / |v| as real)
  {
    var buf := 0.0;
    var mean := VectorMean(v);
    var i := 0;
    while i < |v|
      invariant 0 <= i <= |v|
      invariant buf == SquaredDeviations(v[..i], mean)
    {
      assert v[..i + 1][..i] == v[..i];
      buf := buf + (v[i] - mean) * (v[i] - mean);
      i := i + 1;
    }
    assert v[..i] == v;
    sd := num.sqrt(buf / |v| as real);
  }

  // ---------------------------------------------------------------------------
  // Rank selection

  function Below(x: real, v: real, inclusive: bool): bool
  {
    if inclusive then x <= v else x < v
  }

  /** How many elements of `s` are below `v` (or at most `v` when `inclusive`). */
  function CountBelow(s: seq<real>, v: real, inclusive: bool): (n: nat)
    ensures n <= |s|
  {
    if |s| == 0 then 0
    else CountBelow(s[..|s| - 1], v, inclusive) + (if Below(s[|s| - 1], v, inclusive) then 1 else 0)
  }

  /** `v` is the element of 0-based rank `k` of `s`: at most `k` elements are
      smaller than it and more than `k` are at most it. */
  ghost predicate IsRankElement(s: seq<real>, k: nat, v: real)
  {
    CountBelow(s, v, false) <= k < CountBelow(s, v, true)
  }

  ghost predicate Sorted(t: seq<real>)
  {
    forall i, j :: 0 <= i < j < |t| ==> t[i] <= t[j]
  }

  lemma {:induction false} CountBelowConcat(a: seq<real>, b: seq<real>, v: real, inclusive: bool)
    ensures CountBelow(a + b, v, inclusive) == CountBelow(a, v, inclusive) + CountBelow(b, v, inclusive)
    decreases |b|
  {
    if |b| == 0 {
      assert a + b == a;
    } else {
      var b' := b[..|b| - 1];
      assert (a + b)[..|a + b| - 1] == a + b';
      CountBelowConcat(a, b', v, inclusive);
    }
  }

  lemma {:induction false} CountBelowAll(s: seq<real>, v: real, inclusive: bool)
    requires forall i :: 0 <= i < |s| ==> Below(s[i], v, inclusive)
    ensures CountBelow(s, v, inclusive) == |s|
  {
    if |s| > 0 {
      CountBelowAll(s[..|s| - 1], v, inclusive);
    }
  }

  lemma {:induction false} CountBelowNone(s: seq<real>, v: real, inclusive: bool)
    requires forall i :: 0 <= i < |s| ==> !Below(s[i], v, inclusive)
    ensures CountBelow(s, v, inclusive) == 0
  {
    if |s| > 0 {
      CountBelowNone(s[..|s| - 1], v, inclusive);
    }
  }

  /** Counting does not depend on the order of the elements. */
  lemma {:induction false} CountBelowPermutation(s: seq<real>, t: seq<real>, v: real, inclusive: bool)
    requires multiset(s) == multiset(t)
    ensures CountBelow(s, v, inclusive) == CountBelow(t, v, inclusive)
    decreases |s|
  {
    if |s| == 0 {
      assert |t| == |multiset(t)| == 0;
    } else {
      var x := s[|s| - 1];
      var s' := s[..|s| - 1];
      assert s == s' + [x];
      assert x in multiset(t);
      var j :| 0 <= j < |t| && t[j] == x;
      var t' := t[..j] + t[j + 1..];
      assert t == t[..j] + [x] + t[j + 1..];
      assert multiset(t') == multiset(t) - multiset{x};
      assert multiset(s') == multiset(s) - multiset{x};
      CountBelowPermutation(s', t', v, inclusive);
      CountBelowConcat(t[..j] + [x], t[j + 1..], v, inclusive);
      CountBelowConcat(t[..j], [x], v, inclusive);
      CountBelowConcat(t[..j], t[j + 1..], v, inclusive);
      assert [x][..0] == [];
    }
  }

  /** An element that nothing before it exceeds and nothing after it undercuts
      has rank equal to its index. */
  lemma PartitionRank(s: seq<real>, k: nat)
    requires k < |s|
    requires forall i :: 0 <= i < k ==> s[i] <= s[k]
    requires forall i :: k < i < |s| ==> s[k] <= s[i]
    ensures IsRankElement(s, k, s[k])
  {
    var v := s[k];
    assert s == s[..k] + s[k..];
    CountBelowNone(s[k..], v, false);
    CountBelowConcat(s[..k], s[k..], v, false);
    assert s == s[..k + 1] + s[k + 1..];
    CountBelowAll(s[..k + 1], v, true);
    CountBelowConcat(s[..k + 1], s[k + 1..], v, true);
  }

  /** The rank-`k` element is the one at index `k` of the sorted order. */
  lemma RankIsSortedIndex(s: seq<real>, t: seq<real>, k: nat, v: real)
    requires multiset(s) == multiset(t) && Sorted(t)
    requires k < |t|
    requires IsRankElement(s, k, v)
    ensures t[k] == v
  {
    CountBelowPermutation(s, t, v, false);
    CountBelowPermutation(s, t, v, true);
    if t[k] < v {
      assert t == t[..k + 1] + t[k + 1..];
      CountBelowAll(t[..k + 1], v, false);
      CountBelowConcat(t[..k + 1], t[k + 1..], v, false);
      assert false;
    } else if t[k] > v {
      assert t == t[..k] + t[k..];
      CountBelowNone(t[k..], v, true);
      CountBelowConcat(t[..k], t[k..], v, true);
      assert false;
    }
  }

  /** For an even size the median is the upper middle: `[1, 2, 3, 4]` gives 3. */
  lemma MedianOfFourIsUpperMiddle(v: real)
    requires IsRankElement([1.0, 2.0, 3.0, 4.0], 4 / 2, v)
    ensures v == 3.0
  {
    var s := [1.0, 2.0, 3.0, 4.0];
    RankIsSortedIndex(s, s, 2, v);
  }

  /** The index of a smallest element of `a[lo..]`. */
  method IndexOfMin(a: array<real>, lo: nat) returns (m: nat)
    requires lo < a.Length
    ensures lo <= m < a.Length
    ensures forall q :: lo <= q < a.Length ==> a[m] <= a[q]
  {
    m := lo;
    var j := lo + 1;
    while j < a.Length
      invariant lo <= m < j <= a.Length
      invariant forall q :: lo <= q < j ==> a[m] <= a[q]
    {
      if a[j] < a[m] {
        m := j;
      }
      j := j + 1;
    }
  }

  method Swap(a: array<real>, i: nat, j: nat)
    requires i < a.Length && j < a.Length
    modifies a
    ensures a[i] == old(a[j]) && a[j] == old(a[i])
    ensures forall q :: 0 <= q < a.Length && q != i && q != j ==> a[q] == old(a[q])
    ensures multiset(a[..]) == multiset(old(a[..]))
  {
    a[i], a[j] := a[j], a[i];
  }

  /** `std::nth_element(a.begin(), a.begin() + k, a.end())`: reorders `a` so that
      the element at `k` is the one sorting would put there, nothing before it
      is larger and nothing after it smaller. Realised here by moving the
      minimum of the unsorted rest into positions `0..k` in turn. */
  method NthElement(a: array<real>, k: nat)
    requires k < a.Length
    modifies a
    ensures multiset(a[..]) == multiset(old(a[..]))
    ensures forall i :: 0 <= i < k ==> a[i] <= a[k]
    ensures forall i :: k < i < a.Length ==> a[k] <= a[i]
  {
    var i := 0;
    while i <= k
      invariant 0 <= i <= k + 1
      invariant multiset(a[..]) == multiset(old(a[..]))
      invariant forall p, q :: 0 <= p < i && p < q < a.Length ==> a[p] <= a[q]
    {
      var m := IndexOfMin(a, i);
      Swap(a, i, m);
      i := i + 1;
    }
  }

  /** `vector_median(vec)`: selects, in place, the element of rank `size / 2`
      (the middle for odd sizes, the upper middle for even sizes) and returns it. */
  method VectorMedian(a: array<real>) returns (median: real)
    requires a.Length > 0
    modifies a
    ensures multiset(a[..]) == multiset(old(a[..]))
    ensures median == a[a.Length / 2]
    ensures forall i :: 0 <= i < a.Length / 2 ==> a[i] <= median
    ensures forall i :: a.Length / 2 < i < a.Length ==> median <= a[i]
    ensures IsRankElement(old(a[..]), a.Length / 2, median)
  {
    var n := a.Length / 2;
    NthElement(a, n);
    median := a[n];
    PartitionRank(a[..], n);
    CountBelowPermutation(a[..], old(a[..]), median, false);
    CountBelowPermutation(a[..], old(a[..]), median, true);
  }
}
