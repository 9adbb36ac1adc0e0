/** Median, median absolute deviation and percentile over exact reals (`robust.ts`). */
module Robust {
  import opened Common
  import opened Sorting
  import opened OrderStatistics

  predicate AtMost(x: real, y: real) { x <= y }

  lemma AtMostOrder()
    ensures TotalPreorder(AtMost) && Antisymmetric(AtMost)
  {
  }

  function Between(lo: real, hi: real): real -> bool { x => lo <= x <= hi }

  function Median(values: seq<real>): real {
    if values == [] then 0.0
    else
      var sorted, mid := Sort(values, AtMost), |values| / 2;
      if |values| % 2 == 0 then (sorted[mid - 1] + sorted[mid]) / 2.0 else sorted[mid]
  }

  function Deviations(values: seq<real>, center: real): (r: seq<real>)
    ensures |r| == |values|
  {
    seq(|values|, i requires 0 <= i < |values| => AbsReal(values[i] - center))
  }

  function Mad(values: seq<real>): real {
    if values == [] then 0.0 else Median(Deviations(values, Median(values)))
  }

  const MAD_TO_STDDEV: real := 1.4826

  function RobustZScore(value: real, population: seq<real>): real {
    if population == [] then 0.0
    else
      var spread := Mad(population) * MAD_TO_STDDEV;
      if spread == 0.0 then 0.0 else (value - Median(population)) / spread
  }

  // ---- breakdown ----

  lemma BetweenConvex(lo: real, hi: real)
    ensures Convex(AtMost, Between(lo, hi))
  {
  }

  /** Whatever a minority does, the median stays where the majority is. */
  lemma MedianBreakdown(values: seq<real>, lo: real, hi: real)
    requires Majority(values, Between(lo, hi))
    ensures lo <= Median(values) <= hi
  {
    AtMostOrder();
    BetweenConvex(lo, hi);
    MajorityHoldsMiddle(values, AtMost, Between(lo, hi));
    var mid := |values| / 2;
    assert Between(lo, hi)(Sort(values, AtMost)[mid]);
    if |values| % 2 == 0 { assert Between(lo, hi)(Sort(values, AtMost)[mid - 1]); }
  }

  lemma {:induction false} DeviationsCount(values: seq<real>, center: real, lo: real, hi: real)
    requires lo <= center <= hi
    ensures CountOf(Deviations(values, center), Between(0.0, hi - lo)) >= CountOf(values, Between(lo, hi))
  {
    if values != [] {
      DeviationsCount(values[1..], center, lo, hi);
      assert Deviations(values, center)[1..] == Deviations(values[1..], center);
      assert Between(lo, hi)(values[0]) ==> Between(0.0, hi - lo)(Deviations(values, center)[0]);
    }
  }

  /** The spread estimate is no wider than the majority's own range. */
  lemma MadBreakdown(values: seq<real>, lo: real, hi: real)
    requires Majority(values, Between(lo, hi))
    ensures 0.0 <= Mad(values) <= hi - lo
  {
    MedianBreakdown(values, lo, hi);
    DeviationsCount(values, Median(values), lo, hi);
    MedianBreakdown(Deviations(values, Median(values)), 0.0, hi - lo);
  }

  /** When over half the population shares one value there is no usable spread, and every score is 0. */
  lemma AgreementHasNoSpread(value: real, population: seq<real>, common: real)
    requires Majority(population, Between(common, common))
    ensures Median(population) == common && RobustZScore(value, population) == 0.0
  {
    MedianBreakdown(population, common, common);
    MadBreakdown(population, common, common);
  }

  /** Exactly half is not enough: a sample half inside the range can have any median above it. */
  lemma BreakdownIsSharp(lo: real, hi: real, bound: real) returns (values: seq<real>)
    requires lo <= hi
    ensures 2 * CountOf(values, Between(lo, hi)) == |values| > 0
    ensures Median(values) > bound && Median(values) > hi
  {
    var far := 2.0 * MaxReal(bound, hi) - lo + 2.0;
    values := [lo, far];
    assert values == [lo] + [far];
    CountConcat([lo], [far], Between(lo, hi));
    assert Between(lo, hi)(lo) && !Between(lo, hi)(far);
    assert Filter([lo], Between(lo, hi)) == [lo] && Filter([far], Between(lo, hi)) == [];
    assert values[1..] == [far];
    assert Sort([far], AtMost) == [far];
    assert Sort(values, AtMost) == [lo, far];
  }

  /** The median does not see the order of the sample. */
  lemma MedianPermutation(xs: seq<real>, ys: seq<real>)
    requires multiset(xs) == multiset(ys)
    ensures Median(xs) == Median(ys)
  {
    AtMostOrder();
    SortPermutation(xs, ys, AtMost);
    assert |xs| == |multiset(xs)| == |multiset(ys)| == |ys|;
  }

  // ---- the formulas, spelled out ----

  /** The median of any ascending arrangement: its middle, or the mean of the two middle ones; 0 of nothing. */
  lemma MedianExact(values: seq<real>, ascending: seq<real>)
    requires multiset(ascending) == multiset(values)
    requires forall i, j | 0 <= i < j < |ascending| :: ascending[i] <= ascending[j]
    ensures |ascending| == |values|
    ensures
      var n := |values|;
      if n == 0 then Median(values) == 0.0
      else if n % 2 == 1 then Median(values) == ascending[n / 2]
      else 2.0 * Median(values) == ascending[n / 2 - 1] + ascending[n / 2]
  {
    AtMostOrder();
    SortCorrect(values, AtMost);
    SortedUnique(Sort(values, AtMost), ascending, AtMost);
    assert |multiset(ascending)| == |ascending| && |multiset(values)| == |values|;
  }

  /** The MAD is the median of the distances from the median. */
  lemma MadExact(values: seq<real>, distances: seq<real>)
    requires |distances| == |values|
    requires forall i | 0 <= i < |values| ::
      distances[i] == if values[i] >= Median(values) then values[i] - Median(values) else Median(values) - values[i]
    ensures Mad(values) == Median(distances)
  {
    assert Deviations(values, Median(values)) == distances;
  }

  /** A z-score counts distances from the median in units of 1.4826 MADs, and is 0 where there is no spread. */
  lemma ZScoreExact(value: real, population: seq<real>)
    ensures Mad(population) == 0.0 ==> RobustZScore(value, population) == 0.0
    ensures Mad(population) != 0.0 ==>
      RobustZScore(value, population) * (Mad(population) * 1.4826) == value - Median(population)
  {
    hide Median, Mad;
    if Mad(population) != 0.0 {
      NoneHasNoSpread();
      var spread := Mad(population) * 1.4826;
      assert spread != 0.0;
      assert (value - Median(population)) / spread * spread == value - Median(population);
    }
  }

  lemma NoneHasNoSpread()
    ensures Mad([]) == 0.0
  {
  }

  // ---- percentile ----

  function Ceiling(x: real): int { -(-x).Floor }

  /** Linear interpolation at a real position of a sorted list. */
  function At(sorted: seq<real>, idx: real): real
    requires 0.0 <= idx <= (|sorted| - 1) as real
  {
    var lo, hi := idx.Floor, Ceiling(idx);
    if lo == hi then sorted[lo] else sorted[lo] + Times(sorted[hi] - sorted[lo], idx - lo as real)
  }

  function Fraction(p: real): real { MinReal(1.0, MaxReal(0.0, p)) }

  function Index(n: nat, p: real): (idx: real)
    requires n > 0
    ensures 0.0 <= idx <= (n - 1) as real
  {
    TimesShare((n - 1) as real, Fraction(p));
    Times((n - 1) as real, Fraction(p))
  }

  function Percentile(values: seq<real>, p: real): real {
    if values == [] then 0.0 else At(Sort(values, AtMost), Index(|values|, p))
  }

  lemma AtBracket(sorted: seq<real>, idx: real)
    requires SortedBy(sorted, AtMost) && 0.0 <= idx <= (|sorted| - 1) as real
    ensures sorted[idx.Floor] <= At(sorted, idx) <= sorted[Ceiling(idx)]
  {
    var lo, hi := idx.Floor, Ceiling(idx);
    if lo != hi {
      assert hi == lo + 1 && AtMost(sorted[lo], sorted[hi]);
      TimesShare(sorted[hi] - sorted[lo], idx - lo as real);
    }
  }

  lemma AtMonotone(sorted: seq<real>, x: real, y: real)
    requires SortedBy(sorted, AtMost) && 0.0 <= x <= y <= (|sorted| - 1) as real
    ensures At(sorted, x) <= At(sorted, y)
  {
    hide Times;
    AtBracket(sorted, x);
    AtBracket(sorted, y);
    var lo, hi := Ceiling(x), y.Floor;
    if lo <= hi {
      assert lo == hi || AtMost(sorted[lo], sorted[hi]);
    } else {
      var a, b := x.Floor, x.Floor + 1;
      assert y.Floor == a && Ceiling(x) == b && Ceiling(y) == b && AtMost(sorted[a], sorted[b]);
      var fx, fy := x - a as real, y - a as real;
      TimesMonotone(sorted[b] - sorted[a], fx, fy);
    }
  }

  lemma IndexMonotone(n: nat, p: real, q: real)
    requires n > 0 && p <= q
    ensures Index(n, p) <= Index(n, q)
  {
    hide Times;
    var d, x, y := (n - 1) as real, Fraction(p), Fraction(q);
    assert x <= y;
    TimesMonotone(d, x, y);
  }

  /** A higher percentile is never a smaller value. */
  lemma PercentileMonotone(values: seq<real>, p: real, q: real)
    requires p <= q
    ensures Percentile(values, p) <= Percentile(values, q)
  {
    if values != [] {
      AtMostOrder();
      SortCorrect(values, AtMost);
      IndexMonotone(|values|, p, q);
      AtMonotone(Sort(values, AtMost), Index(|values|, p), Index(|values|, q));
    }
  }

  lemma PercentileEnds(values: seq<real>)
    requires values != []
    ensures Percentile(values, 0.0) == Sort(values, AtMost)[0]
    ensures Percentile(values, 1.0) == Sort(values, AtMost)[|values| - 1]
  {
    hide Sort;
    var d := (|values| - 1) as real;
    assert Times(d, 0.0) == 0.0 && Times(d, 1.0) == d;
  }

  lemma PercentileOutside(values: seq<real>, p: real)
    ensures p <= 0.0 ==> Percentile(values, p) == Percentile(values, 0.0)
    ensures p >= 1.0 ==> Percentile(values, p) == Percentile(values, 1.0)
  {
    assert p <= 0.0 ==> Fraction(p) == Fraction(0.0);
    assert p >= 1.0 ==> Fraction(p) == Fraction(1.0);
  }

  lemma SortedEnds(values: seq<real>)
    requires values != []
    ensures var s := Sort(values, AtMost);
      s[0] in values && s[|values| - 1] in values && forall x | x in values :: s[0] <= x <= s[|values| - 1]
  {
    hide Sort;
    AtMostOrder();
    SortCorrect(values, AtMost);
    SortMembers(values, AtMost);
    var s := Sort(values, AtMost);
    assert s[0] in s && s[|s| - 1] in s;
    forall x | x in values ensures s[0] <= x <= s[|s| - 1] {
      var i :| 0 <= i < |s| && s[i] == x;
      assert i == 0 || AtMost(s[0], s[i]);
      assert i == |s| - 1 || AtMost(s[i], s[|s| - 1]);
    }
  }

  /** Percentiles run from the least value, at 0 and below, to the greatest, at 1 and above. */
  lemma PercentileRange(values: seq<real>, p: real)
    requires values != []
    ensures forall x | x in values :: Percentile(values, 0.0) <= x <= Percentile(values, 1.0)
    ensures Percentile(values, 0.0) in values && Percentile(values, 1.0) in values
    ensures Percentile(values, 0.0) <= Percentile(values, p) <= Percentile(values, 1.0)
  {
    hide Percentile, Sort;
    PercentileEnds(values);
    SortedEnds(values);
    PercentileOutside(values, p);
    if 0.0 < p < 1.0 {
      PercentileMonotone(values, 0.0, p);
      PercentileMonotone(values, p, 1.0);
    } else {
      PercentileMonotone(values, 0.0, 1.0);
    }
  }

  /** The fiftieth percentile is the median. */
  lemma PercentileMedian(values: seq<real>)
    ensures Percentile(values, 0.5) == Median(values)
  {
    if values != [] {
      var n := |values|;
      var idx := Index(n, 0.5);
      assert idx == (n - 1) as real * 0.5;
      if n % 2 == 0 {
        assert idx == (n / 2 - 1) as real + 0.5;
        assert idx.Floor == n / 2 - 1 && Ceiling(idx) == n / 2;
      } else {
        assert idx == (n / 2) as real;
        assert idx.Floor == n / 2 && Ceiling(idx) == n / 2;
      }
    }
  }
}
