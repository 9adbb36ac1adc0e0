/** Weights, bands and the score (`scoring.ts`), and the policy engine's own band lookup. */
module Scoring {
  import opened Common
  import opened Sorting

  datatype Weight = Weight(feature: string, weight: real)

  datatype Threshold = Threshold(band: string, minScore: real, maxScore: real)

  datatype Confidence = LOW | MEDIUM | HIGH

  datatype Feature = Feature(name: string, value: real, confidence: Confidence)

  datatype Scored = Scored(name: string, value: real, weight: real, contribution: real, confidence: Confidence)

  datatype ScoreResult = ScoreResult(score: real, band: string, confidence: Confidence, features: seq<Scored>)

  datatype PolicyFault =
    | NoWeights
    | InvalidWeight(feature: string)
    | WeightsDoNotSum
    | NoThresholds
    | StartsOff
    | EndsOff
    | GapOrOverlap(below: string, above: string)
    | NoBand
    | NoWeightFor(feature: string)

  datatype Result<T> = Ok(value: T) | Fault(fault: PolicyFault)

  const RESERVE: string := "RESERVE"
  const EPSILON: real := 0.000000001
  const SUM_TOLERANCE: real := 0.000001

  // ---- weights ----

  function Total(weights: seq<Weight>): real {
    if weights == [] then 0.0 else Total(weights[..|weights| - 1]) + weights[|weights| - 1].weight
  }

  ghost predicate ValidWeights(weights: seq<Weight>) {
    && weights != []
    && (forall w | w in weights :: w.weight >= 0.0)
    && AbsReal(Total(weights) - 1.0) <= SUM_TOLERANCE
  }

  /** What a fault says of the weights it was found in: the first negative one is named, and the sum is checked last. */
  ghost predicate WeightFault(weights: seq<Weight>, fault: PolicyFault) {
    match fault
    case NoWeights => weights == []
    case InvalidWeight(name) =>
      exists i :: 0 <= i < |weights| && weights[i].feature == name && weights[i].weight < 0.0
                  && forall j | 0 <= j < i :: weights[j].weight >= 0.0
    case WeightsDoNotSum =>
      && weights != [] && (forall w | w in weights :: w.weight >= 0.0)
      && (Total(weights) < 1.0 - 0.000001 || Total(weights) > 1.0 + 0.000001)
    case _ => false
  }

  method ValidateWeights(weights: seq<Weight>) returns (fault: Option<PolicyFault>)
    ensures fault.None? <==> ValidWeights(weights)
    ensures fault.Some? ==> WeightFault(weights, fault.value)
  {
    if |weights| == 0 { return Some(NoWeights); }
    for i := 0 to |weights|
      invariant forall j | 0 <= j < i :: weights[j].weight >= 0.0
    {
      if weights[i].weight < 0.0 { return Some(InvalidWeight(weights[i].feature)); }
    }
    fault := if AbsReal(Total(weights) - 1.0) > SUM_TOLERANCE then Some(WeightsDoNotSum) else None;
  }

  // ---- thresholds ----

  predicate ByMin(a: Threshold, b: Threshold) { a.minScore <= b.minScore }

  lemma ByMinOrder()
    ensures TotalPreorder(ByMin)
  {
  }

  predicate Meets(below: Threshold, above: Threshold) {
    AbsReal(above.minScore - below.maxScore) <= EPSILON
  }

  /** Bands listed from the bottom: they start at 0, end at 1 and meet, each within the tolerance. */
  ghost predicate Tiles(sorted: seq<Threshold>) {
    && sorted != []
    && AbsReal(sorted[0].minScore) <= EPSILON
    && AbsReal(sorted[|sorted| - 1].maxScore - 1.0) <= EPSILON
    && forall i | 1 <= i < |sorted| :: Meets(sorted[i - 1], sorted[i])
  }

  ghost predicate ValidThresholds(thresholds: seq<Threshold>) { Tiles(Sort(thresholds, ByMin)) }

  predicate Apart(x: real, y: real) { x - y > 0.000000001 || y - x > 0.000000001 }

  /** What a fault says of the sorted bands: the ends are checked first, then the first pair that does not meet. */
  ghost predicate ThresholdFault(sorted: seq<Threshold>, fault: PolicyFault) {
    match fault
    case NoThresholds => sorted == []
    case StartsOff => sorted != [] && Apart(sorted[0].minScore, 0.0)
    case EndsOff => sorted != [] && !Apart(sorted[0].minScore, 0.0) && Apart(sorted[|sorted| - 1].maxScore, 1.0)
    case GapOrOverlap(below, above) => exists i: nat :: FirstApart(sorted, i, below, above)
    case _ => false
  }

  predicate FirstApart(sorted: seq<Threshold>, i: nat, below: string, above: string) {
    && 1 <= i < |sorted| && sorted[i - 1].band == below && sorted[i].band == above
    && Apart(sorted[i].minScore, sorted[i - 1].maxScore)
    && forall j | 1 <= j < i :: !Apart(sorted[j].minScore, sorted[j - 1].maxScore)
  }

  method ValidateThresholds(thresholds: seq<Threshold>) returns (fault: Option<PolicyFault>)
    ensures fault.None? <==> ValidThresholds(thresholds)
    ensures fault.Some? ==> ThresholdFault(Sort(thresholds, ByMin), fault.value)
  {
    if |thresholds| == 0 { return Some(NoThresholds); }
    var sorted := Sort(thresholds, ByMin);
    if AbsReal(sorted[0].minScore) > EPSILON { return Some(StartsOff); }
    if AbsReal(sorted[|sorted| - 1].maxScore - 1.0) > EPSILON { return Some(EndsOff); }
    for i := 1 to |sorted|
      invariant forall j | 1 <= j < i :: Meets(sorted[j - 1], sorted[j])
    {
      if !Meets(sorted[i - 1], sorted[i]) {
        assert FirstApart(sorted, i, sorted[i - 1].band, sorted[i].band);
        return Some(GapOrOverlap(sorted[i - 1].band, sorted[i].band));
      }
    }
    fault := None;
  }

  /** Half-open, except that the topmost band is closed. */
  predicate Covers(sorted: seq<Threshold>, i: nat, score: real)
    requires i < |sorted|
  {
    && score >= sorted[i].minScore - EPSILON
    && (if i == |sorted| - 1 then score <= sorted[i].maxScore + EPSILON else score < sorted[i].maxScore)
  }

  /** The first band, at or above position `from`, that covers the score. */
  function BandIndex(sorted: seq<Threshold>, score: real, from: nat): (i: Option<nat>)
    requires from <= |sorted|
    ensures i.Some? ==> from <= i.value < |sorted| && Covers(sorted, i.value, score)
    ensures i.Some? ==> forall j | from <= j < i.value :: !Covers(sorted, j, score)
    ensures i.None? ==> forall j | from <= j < |sorted| :: !Covers(sorted, j, score)
    decreases |sorted| - from
  {
    if from == |sorted| then None
    else if Covers(sorted, from, score) then Some(from)
    else BandIndex(sorted, score, from + 1)
  }

  function Rank(thresholds: seq<Threshold>, score: real): Option<nat> {
    BandIndex(Sort(thresholds, ByMin), score, 0)
  }

  method BandFor(score: real, thresholds: seq<Threshold>) returns (r: Result<string>)
    ensures r.Ok? <==> ValidThresholds(thresholds) && Rank(thresholds, score).Some?
    ensures r.Ok? ==> r.value == Sort(thresholds, ByMin)[Rank(thresholds, score).value].band
    ensures ValidThresholds(thresholds) && 0.0 <= score <= 1.0 ==> r.Ok?
    ensures r.Fault? ==> r.fault == NoBand || ThresholdFault(Sort(thresholds, ByMin), r.fault)
  {
    var fault := ValidateThresholds(thresholds);
    if fault.Some? { return Fault(fault.value); }
    if 0.0 <= score <= 1.0 { EveryScoreBanded(thresholds, score); }
    var sorted := Sort(thresholds, ByMin);
    for i := 0 to |sorted|
      invariant forall j | 0 <= j < i :: !Covers(sorted, j, score)
    {
      if Covers(sorted, i, score) { return Ok(sorted[i].band); }
    }
    r := Fault(NoBand);
  }

  // ---- every score has a band, and bands never step back ----

  /** A score that no earlier band took is high enough for the next one. */
  lemma {:induction false} Reaches(sorted: seq<Threshold>, score: real, i: nat)
    requires Tiles(sorted) && score >= 0.0 && i < |sorted|
    requires forall j | 0 <= j < i :: !Covers(sorted, j, score)
    ensures score >= sorted[i].minScore - EPSILON
  {
    if i > 0 {
      Reaches(sorted, score, i - 1);
      assert Meets(sorted[i - 1], sorted[i]) && !Covers(sorted, i - 1, score);
    }
  }

  /** Accepted thresholds leave no score in [0, 1] without a band. */
  lemma EveryScoreBanded(thresholds: seq<Threshold>, score: real)
    requires ValidThresholds(thresholds) && 0.0 <= score <= 1.0
    ensures Rank(thresholds, score).Some?
  {
    var sorted := Sort(thresholds, ByMin);
    if Rank(thresholds, score).None? {
      Reaches(sorted, score, |sorted| - 1);
      assert Covers(sorted, |sorted| - 1, score);
    }
  }

  /** A higher score is never in a lower band. */
  lemma BandMonotone(thresholds: seq<Threshold>, low: real, high: real)
    requires ValidThresholds(thresholds) && 0.0 <= low <= high <= 1.0
    ensures Rank(thresholds, low).Some? && Rank(thresholds, high).Some?
    ensures Rank(thresholds, low).value <= Rank(thresholds, high).value
  {
    EveryScoreBanded(thresholds, low);
    EveryScoreBanded(thresholds, high);
    var sorted, k := Sort(thresholds, ByMin), Rank(thresholds, high).value;
    assert Covers(sorted, k, high);
    if !Covers(sorted, k, low) && Rank(thresholds, low).value > k {
      Reaches(sorted, low, k);
    }
  }

  // ---- the policy engine's lookup ----

  predicate Within(t: Threshold, score: real) {
    score >= t.minScore && (score < t.maxScore || (t.maxScore >= 1.0 && score <= 1.0))
  }

  /** First row that holds the score, in whatever order the rows come. */
  function PolicyRow(rows: seq<Threshold>, score: real): Option<Threshold> {
    if rows == [] then None
    else if Within(rows[0], score) then Some(rows[0])
    else PolicyRow(rows[1..], score)
  }

  function PolicyBand(rows: seq<Threshold>, score: real): Option<string> {
    var row := PolicyRow(rows, score);
    if row.Some? then Some(row.value.band) else None
  }

  /** A score outside [0, 1] is held nowhere by rows inside it. */
  lemma {:induction false} OutsideHeldNowhere(rows: seq<Threshold>, score: real)
    requires forall t | t in rows :: 0.0 <= t.minScore && t.maxScore <= 1.0
    requires score < 0.0 || score > 1.0
    ensures PolicyBand(rows, score) == None
  {
    if rows != [] {
      assert rows[0] in rows && forall t | t in rows[1..] :: t in rows;
      OutsideHeldNowhere(rows[1..], score);
    }
  }

  method PolicyBandFor(score: real, rows: seq<Threshold>) returns (band: Option<string>)
    ensures band == PolicyBand(rows, score)
  {
    for i := 0 to |rows|
      invariant PolicyRow(rows, score) == PolicyRow(rows[i..], score)
    {
      if Within(rows[i], score) { return Some(rows[i].band); }
    }
    band := None;
  }

  /** Bands of positive width that start at 0, end at 1 and meet exactly. */
  ghost predicate ExactTiling(sorted: seq<Threshold>) {
    && sorted != [] && sorted[0].minScore == 0.0 && sorted[|sorted| - 1].maxScore == 1.0
    && (forall i | 0 <= i < |sorted| :: sorted[i].minScore < sorted[i].maxScore)
    && (forall i | 1 <= i < |sorted| :: sorted[i].minScore == sorted[i - 1].maxScore)
  }

  lemma {:induction false} TilingAscends(sorted: seq<Threshold>, i: nat, j: nat)
    requires ExactTiling(sorted) && i < j < |sorted|
    ensures sorted[i].maxScore <= sorted[j].minScore
  {
    if i + 1 < j {
      TilingAscends(sorted, i, j - 1);
      assert sorted[j - 1].minScore < sorted[j - 1].maxScore;
    }
  }

  lemma ExactTilingTiles(sorted: seq<Threshold>)
    requires ExactTiling(sorted)
    ensures Tiles(sorted)
  {
  }

  /** In an exact tiling the band the scorer picks is the only row that holds the score. */
  lemma HolderUnique(sorted: seq<Threshold>, score: real, i: nat, j: nat)
    requires ExactTiling(sorted) && 0.0 <= score <= 1.0 && i < |sorted| && j < |sorted|
    requires BandIndex(sorted, score, 0) == Some(i)
    ensures Within(sorted[j], score) <==> j == i
  {
    if i > 0 {
      EarlierPassed(sorted, score, i - 1, i);
    }
    if j < i {
      TilingAscends(sorted, j, i);
      TopIsLast(sorted, j);
    } else if j > i {
      TilingAscends(sorted, i, j);
    } else if i < |sorted| - 1 {
      assert Covers(sorted, i, score);
    }
  }

  lemma TopIsLast(sorted: seq<Threshold>, j: nat)
    requires ExactTiling(sorted) && j < |sorted| - 1
    ensures sorted[j].maxScore < 1.0
  {
    TilingAscends(sorted, j, |sorted| - 1);
  }

  lemma {:induction false} EarlierPassed(sorted: seq<Threshold>, score: real, k: nat, i: nat)
    requires ExactTiling(sorted) && score >= 0.0 && k < i < |sorted|
    requires forall j | 0 <= j < i :: !Covers(sorted, j, score)
    ensures score >= sorted[k].maxScore
  {
    if k > 0 { EarlierPassed(sorted, score, k - 1, i); }
    assert !Covers(sorted, k, score);
  }

  lemma {:induction false} PolicyRowFound(rows: seq<Threshold>, score: real, t: Threshold)
    requires t in rows && Within(t, score)
    requires forall u | u in rows && Within(u, score) :: u == t
    ensures PolicyRow(rows, score) == Some(t)
  {
    assert rows[0] in rows;
    if !Within(rows[0], score) {
      PolicyRowFound(rows[1..], score, t);
    }
  }

  /** Both lookups agree on exact tilings of positive width, in whatever order the rows are stored. */
  lemma BandsAgree(thresholds: seq<Threshold>, rows: seq<Threshold>, score: real)
    requires ExactTiling(Sort(thresholds, ByMin)) && multiset(rows) == multiset(thresholds)
    requires 0.0 <= score <= 1.0
    ensures ValidThresholds(thresholds) && Rank(thresholds, score).Some?
    ensures PolicyBand(rows, score) == Some(Sort(thresholds, ByMin)[Rank(thresholds, score).value].band)
  {
    var sorted := Sort(thresholds, ByMin);
    ExactTilingTiles(sorted);
    EveryScoreBanded(thresholds, score);
    var i := Rank(thresholds, score).value;
    ByMinOrder();
    SortCorrect(thresholds, ByMin);
    forall u ensures u in rows <==> u in sorted {
      assert u in multiset(rows) <==> u in multiset(sorted);
    }
    forall u | u in rows && Within(u, score) ensures u == sorted[i] {
      var j :| 0 <= j < |sorted| && sorted[j] == u;
      HolderUnique(sorted, score, i, j);
    }
    HolderUnique(sorted, score, i, i);
    assert sorted[i] in sorted;
    PolicyRowFound(rows, score, sorted[i]);
  }

  // ---- exactly when the two lookups agree ----

  /** Every band is wider than both tolerances together. */
  ghost predicate Wide(sorted: seq<Threshold>) {
    forall i | 0 <= i < |sorted| :: sorted[i].minScore + 2.0 * EPSILON < sorted[i].maxScore
  }

  /** The rows reach both ends of the range and leave no gap, not even one within the tolerance. */
  ghost predicate Gapless(sorted: seq<Threshold>) {
    && sorted != [] && sorted[0].minScore <= 0.0 && sorted[|sorted| - 1].maxScore >= 1.0
    && forall i | 1 <= i < |sorted| :: sorted[i].minScore <= sorted[i - 1].maxScore
  }

  ghost predicate NoOverlap(sorted: seq<Threshold>) {
    forall i | 1 <= i < |sorted| :: sorted[i - 1].maxScore <= sorted[i].minScore
  }

  /** The policy engine holds a score in the very row the scorer bands it in. */
  ghost predicate SameRow(sorted: seq<Threshold>, rows: seq<Threshold>, score: real) {
    BandIndex(sorted, score, 0).Some? && PolicyRow(rows, score) == Some(sorted[BandIndex(sorted, score, 0).value])
  }

  ghost predicate LookupsAgree(sorted: seq<Threshold>, rows: seq<Threshold>) {
    forall score | 0.0 <= score <= 1.0 :: SameRow(sorted, rows, score)
  }

  /** Wide bands ascend, by more than the tolerance, in both bounds. */
  lemma {:induction false} Ascends(sorted: seq<Threshold>, i: nat, j: nat)
    requires Tiles(sorted) && Wide(sorted) && i < j < |sorted|
    ensures sorted[i].maxScore <= sorted[j].minScore + EPSILON
    ensures sorted[i].maxScore + EPSILON < sorted[j].maxScore
    ensures sorted[i].minScore + EPSILON < sorted[j].minScore
  {
    assert Meets(sorted[j - 1], sorted[j]);
    if i + 1 < j { Ascends(sorted, i, j - 1); }
  }

  /** All bounds but the outermost lie strictly inside the range. */
  lemma InnerBounds(sorted: seq<Threshold>, i: nat)
    requires Tiles(sorted) && Wide(sorted) && i < |sorted|
    ensures sorted[i].maxScore > 0.0
    ensures i < |sorted| - 1 ==> sorted[i].maxScore < 1.0
    ensures i > 0 ==> 0.0 < sorted[i].minScore
  {
    if i > 0 { Ascends(sorted, 0, i); }
    if i < |sorted| - 1 { Ascends(sorted, i, |sorted| - 1); }
  }

  /** A score below the top of a band and at or above everything beneath it is banded there. */
  lemma BandedAt(sorted: seq<Threshold>, k: nat, score: real)
    requires Tiles(sorted) && Wide(sorted) && k < |sorted| && Covers(sorted, k, score)
    requires k > 0 ==> score >= sorted[k - 1].maxScore
    ensures BandIndex(sorted, score, 0) == Some(k)
  {
    forall j | 0 <= j < k ensures !Covers(sorted, j, score) {
      if j < k - 1 { Ascends(sorted, j, k - 1); }
    }
  }

  lemma {:induction false} FirstHolder(rows: seq<Threshold>, score: real, k: nat)
    requires k < |rows| && Within(rows[k], score) && forall j | 0 <= j < k :: !Within(rows[j], score)
    ensures PolicyRow(rows, score) == Some(rows[k])
  {
    if k > 0 { FirstHolder(rows[1..], score, k - 1); }
  }

  lemma {:induction false} HolderHolds(rows: seq<Threshold>, score: real)
    ensures
      var row := PolicyRow(rows, score);
      row.Some? ==> row.value in rows && Within(row.value, score)
  {
    if rows != [] && !Within(rows[0], score) { HolderHolds(rows[1..], score); }
  }

  /** Below the band of a score nothing holds it; with no gap its own band does. */
  lemma HeldWhereBanded(sorted: seq<Threshold>, score: real)
    requires Tiles(sorted) && Wide(sorted) && 0.0 <= score <= 1.0 && BandIndex(sorted, score, 0).Some?
    ensures
      var k := BandIndex(sorted, score, 0).value;
      && (forall j | 0 <= j < k :: !Within(sorted[j], score))
      && (Gapless(sorted) ==> Within(sorted[k], score))
      && (Gapless(sorted) && NoOverlap(sorted) ==> forall j | k < j < |sorted| :: !Within(sorted[j], score))
  {
    var k := BandIndex(sorted, score, 0).value;
    forall j | 0 <= j < k ensures score >= sorted[j].maxScore && !Within(sorted[j], score) {
      Reaches(sorted, score, j);
      InnerBounds(sorted, j);
      assert !Covers(sorted, j, score);
    }
    assert Covers(sorted, k, score);
    if Gapless(sorted) && k > 0 { assert sorted[k].minScore <= sorted[k - 1].maxScore; }
    if Gapless(sorted) && NoOverlap(sorted) {
      forall j | k < j < |sorted| ensures !Within(sorted[j], score) {
        if k + 1 < j { Ascends(sorted, k + 1, j); }
        assert sorted[k].maxScore <= sorted[k + 1].minScore;
      }
    }
  }

  /** A gap, at an end or between two bands, holds a score that the scorer bands and the policy engine does not. */
  lemma GapUnheld(sorted: seq<Threshold>) returns (score: real)
    requires Tiles(sorted) && Wide(sorted) && !Gapless(sorted)
    ensures 0.0 <= score <= 1.0 && BandIndex(sorted, score, 0).Some?
    ensures !Within(sorted[BandIndex(sorted, score, 0).value], score)
  {
    var top := |sorted| - 1;
    if sorted[0].minScore > 0.0 {
      score := 0.0;
      BandedAt(sorted, 0, score);
    } else if sorted[top].maxScore < 1.0 {
      score := 1.0;
      if top > 0 { Ascends(sorted, top - 1, top); }
      BandedAt(sorted, top, score);
    } else {
      var i :| 1 <= i < |sorted| && sorted[i].minScore > sorted[i - 1].maxScore;
      score := sorted[i - 1].maxScore;
      InnerBounds(sorted, i - 1);
      assert Meets(sorted[i - 1], sorted[i]);
      BandedAt(sorted, i, score);
    }
  }

  /** Two rows down, every band ends at or below this one's start. */
  lemma EndsBelow(sorted: seq<Threshold>, i: nat, j: nat)
    requires Tiles(sorted) && Wide(sorted) && j + 1 < i < |sorted|
    ensures sorted[j].maxScore <= sorted[i].minScore
  {
    Ascends(sorted, j, i - 1);
    assert Meets(sorted[i - 1], sorted[i]);
  }

  /** The start of a band that its lower neighbour overlaps is banded below, in the neighbour. */
  lemma OverlapBanded(sorted: seq<Threshold>, i: nat)
    requires Tiles(sorted) && Wide(sorted) && 1 <= i < |sorted| && sorted[i].minScore < sorted[i - 1].maxScore
    ensures 0.0 <= sorted[i].minScore <= 1.0 && Within(sorted[i], sorted[i].minScore)
    ensures BandIndex(sorted, sorted[i].minScore, 0) == Some(i - 1)
    ensures forall j | 0 <= j < i - 1 :: !Within(sorted[j], sorted[i].minScore)
  {
    var score := sorted[i].minScore;
    InnerBounds(sorted, i);
    InnerBounds(sorted, i - 1);
    Ascends(sorted, i - 1, i);
    if i > 1 { EndsBelow(sorted, i, i - 2); }
    BandedAt(sorted, i - 1, score);
    forall j | 0 <= j < i - 1 ensures !Within(sorted[j], score) {
      InnerBounds(sorted, j);
      EndsBelow(sorted, i, j);
    }
  }

  /** An overlap lets some order of the rows answer with the upper neighbour instead. */
  lemma OverlapStolen(sorted: seq<Threshold>) returns (rows: seq<Threshold>, score: real)
    requires Tiles(sorted) && Wide(sorted) && !NoOverlap(sorted)
    ensures multiset(rows) == multiset(sorted) && 0.0 <= score <= 1.0 && !SameRow(sorted, rows, score)
  {
    hide Tiles, Wide, BandIndex, PolicyRow, Within;
    var i :| 1 <= i < |sorted| && sorted[i].minScore < sorted[i - 1].maxScore;
    score, rows := sorted[i].minScore, sorted[i - 1 := sorted[i]][i := sorted[i - 1]];
    OverlapBanded(sorted, i);
    FirstHolder(rows, score, i - 1);
    Ascends(sorted, i - 1, i);
  }

  /**
   * Rows stored in ascending order: the policy engine holds every score in the band the scorer gives it
   * exactly when the rows reach 0 and 1 and leave no gap between neighbours.
   */
  lemma AscendingAgreeExact(thresholds: seq<Threshold>)
    requires ValidThresholds(thresholds) && Wide(Sort(thresholds, ByMin))
    ensures
      var sorted := Sort(thresholds, ByMin);
      LookupsAgree(sorted, sorted) <==> Gapless(sorted)
  {
    var sorted := Sort(thresholds, ByMin);
    if Gapless(sorted) {
      forall score | 0.0 <= score <= 1.0 ensures SameRow(sorted, sorted, score) {
        EveryScoreBanded(thresholds, score);
        HeldWhereBanded(sorted, score);
        FirstHolder(sorted, score, BandIndex(sorted, score, 0).value);
      }
    } else {
      var score := GapUnheld(sorted);
      HolderHolds(sorted, score);
      assert !SameRow(sorted, sorted, score);
    }
  }

  ghost predicate EveryOrderAgrees(thresholds: seq<Threshold>) {
    forall rows | multiset(rows) == multiset(thresholds) :: LookupsAgree(Sort(thresholds, ByMin), rows)
  }

  /** Rows stored in any order at all: exactly when, besides, no two neighbours overlap. */
  lemma AnyOrderAgreesExact(thresholds: seq<Threshold>)
    requires ValidThresholds(thresholds) && Wide(Sort(thresholds, ByMin))
    ensures
      var sorted := Sort(thresholds, ByMin);
      EveryOrderAgrees(thresholds) <==> Gapless(sorted) && NoOverlap(sorted)
  {
    var sorted := Sort(thresholds, ByMin);
    ByMinOrder();
    SortCorrect(thresholds, ByMin);
    AscendingAgreeExact(thresholds);
    if Gapless(sorted) && NoOverlap(sorted) {
      forall rows | multiset(rows) == multiset(thresholds) ensures LookupsAgree(sorted, rows) {
        forall score | 0.0 <= score <= 1.0 ensures SameRow(sorted, rows, score) {
          EveryScoreBanded(thresholds, score);
          OnlyHolder(sorted, rows, score);
        }
      }
    } else if Gapless(sorted) {
      var rows, score := OverlapStolen(sorted);
      assert !LookupsAgree(sorted, rows);
    } else {
      assert !LookupsAgree(sorted, sorted);
    }
  }

  lemma OnlyHolder(sorted: seq<Threshold>, rows: seq<Threshold>, score: real)
    requires Tiles(sorted) && Wide(sorted) && Gapless(sorted) && NoOverlap(sorted)
    requires multiset(rows) == multiset(sorted) && 0.0 <= score <= 1.0 && BandIndex(sorted, score, 0).Some?
    ensures SameRow(sorted, rows, score)
  {
    var k := BandIndex(sorted, score, 0).value;
    HeldWhereBanded(sorted, score);
    forall u ensures u in rows <==> u in sorted { assert u in multiset(rows) <==> u in multiset(sorted); }
    forall u | u in rows && Within(u, score) ensures u == sorted[k] {
      var j :| 0 <= j < |sorted| && sorted[j] == u;
    }
    assert sorted[k] in sorted;
    PolicyRowFound(rows, score, sorted[k]);
  }

  /** Validation tolerates such a gap: a score inside it is banded by the scorer and held by the policy engine. */
  lemma ToleratedGapDisagrees() returns (thresholds: seq<Threshold>, score: real)
    ensures ValidThresholds(thresholds) && Wide(Sort(thresholds, ByMin)) && 0.0 <= score <= 1.0
    ensures Rank(thresholds, score).Some? && PolicyBand(thresholds, score) == None
  {
    var low := Threshold("ALLOW", 0.0, 0.5);
    var high := Threshold("BLOCK", 0.5000000001, 1.0);
    thresholds, score := [low, high], 0.50000000005;
    assert thresholds[1..] == [high] && Sort([high], ByMin) == [high];
    assert Sort(thresholds, ByMin) == [low, high];
    EveryScoreBanded(thresholds, score);
    assert PolicyRow([high], score) == None;
  }

  // ---- scoring ----

  /** Rows of one name: the last one wins, as in the map built from them. */
  function WeightOf(weights: seq<Weight>, name: string): Option<real> {
    if weights == [] then None
    else if weights[|weights| - 1].feature == name then Some(weights[|weights| - 1].weight)
    else WeightOf(weights[..|weights| - 1], name)
  }

  /** Some weight row is for this feature. */
  ghost predicate HasRow(weights: seq<Weight>, name: string) {
    exists i :: 0 <= i < |weights| && weights[i].feature == name
  }

  lemma {:induction false} WeightOfExact(weights: seq<Weight>, name: string)
    ensures WeightOf(weights, name).Some? <==> HasRow(weights, name)
  {
    if weights != [] {
      var init, last := weights[..|weights| - 1], weights[|weights| - 1];
      WeightOfExact(init, name);
      if i :| 0 <= i < |weights| && weights[i].feature == name {
        assert last.feature == name || init[i].feature == name;
      }
    }
  }

  predicate Weighted(weights: seq<Weight>, features: seq<Feature>) {
    forall f | f in features :: WeightOf(weights, f.name).Some?
  }

  lemma AllWeighted(weights: seq<Weight>, features: seq<Feature>)
    ensures Weighted(weights, features) <==> forall f | f in features :: HasRow(weights, f.name)
  {
    forall f | f in features { WeightOfExact(weights, f.name); }
  }

  /** The first feature that no weight row is for. */
  ghost predicate FirstWithoutRow(weights: seq<Weight>, features: seq<Feature>, name: string) {
    exists k :: 0 <= k < |features| && features[k].name == name && !HasRow(weights, name)
      && forall j | 0 <= j < k :: HasRow(weights, features[j].name)
  }

  lemma FoundWithout(weights: seq<Weight>, features: seq<Feature>, k: nat)
    requires k < |features| && WeightOf(weights, features[k].name).None?
    requires forall j | 0 <= j < k :: WeightOf(weights, features[j].name).Some?
    ensures FirstWithoutRow(weights, features, features[k].name)
  {
    forall j | 0 <= j <= k { WeightOfExact(weights, features[j].name); }
  }

  function RawScore(weights: seq<Weight>, features: seq<Feature>): real
    requires Weighted(weights, features)
  {
    if features == [] then 0.0
    else
      var init, last := features[..|features| - 1], features[|features| - 1];
      RawScore(weights, init) + Times(WeightOf(weights, last.name).value, last.value)
  }

  function Clamp(x: real): real { MinReal(1.0, MaxReal(0.0, x)) }

  function Score(weights: seq<Weight>, features: seq<Feature>): real
    requires Weighted(weights, features)
  {
    Clamp(RawScore(weights, features))
  }

  ghost predicate FeaturesOk(features: seq<Feature>) {
    && (forall f | f in features :: 0.0 <= f.value <= 1.0 && f.name != RESERVE)
    && (forall i, j | 0 <= i < j < |features| :: features[i].name != features[j].name)
  }

  /** The weight of every row whose name is in the set. */
  function Share(weights: seq<Weight>, names: set<string>): real {
    if weights == [] then 0.0
    else
      var init, last := weights[..|weights| - 1], weights[|weights| - 1];
      Share(init, names) + if last.feature in names then last.weight else 0.0
  }

  lemma {:induction false} ShareAdds(weights: seq<Weight>, a: set<string>, b: set<string>)
    requires a !! b
    ensures Share(weights, a + b) == Share(weights, a) + Share(weights, b)
  {
    if weights != [] { ShareAdds(weights[..|weights| - 1], a, b); }
  }

  lemma {:induction false} ShareAtMostTotal(weights: seq<Weight>, names: set<string>)
    requires forall w | w in weights :: w.weight >= 0.0
    ensures 0.0 <= Share(weights, names) <= Total(weights)
  {
    if weights != [] {
      assert weights[|weights| - 1] in weights;
      ShareAtMostTotal(weights[..|weights| - 1], names);
    }
  }

  lemma {:induction false} WeightAtMostShare(weights: seq<Weight>, name: string)
    requires (forall w | w in weights :: w.weight >= 0.0) && WeightOf(weights, name).Some?
    ensures 0.0 <= WeightOf(weights, name).value <= Share(weights, {name})
  {
    var init, last := weights[..|weights| - 1], weights[|weights| - 1];
    assert last in weights;
    if last.feature == name {
      ShareAtMostTotal(init, {name});
    } else {
      WeightAtMostShare(init, name);
    }
  }

  function Names(features: seq<Feature>): set<string> { set f | f in features :: f.name }

  lemma NewName(features: seq<Feature>)
    requires FeaturesOk(features) && features != []
    ensures
      var init, last := features[..|features| - 1], features[|features| - 1];
      && features == init + [last] && FeaturesOk(init) && 0.0 <= last.value <= 1.0
      && last in features && (forall f | f in init :: f in features)
      && Names(features) == Names(init) + {last.name} && last.name !in Names(init)
  {
    var init, last := features[..|features| - 1], features[|features| - 1];
    assert features == init + [last];
  }

  lemma {:induction false} RawScoreAtMostShare(weights: seq<Weight>, features: seq<Feature>)
    requires Weighted(weights, features) && FeaturesOk(features)
    requires forall w | w in weights :: w.weight >= 0.0
    ensures 0.0 <= RawScore(weights, features) <= Share(weights, Names(features))
  {
    if features == [] {
      ShareAtMostTotal(weights, Names(features));
    } else {
      hide Share, WeightOf, Times;
      var init, last := features[..|features| - 1], features[|features| - 1];
      NewName(features);
      RawScoreAtMostShare(weights, init);
      WeightAtMostShare(weights, last.name);
      TimesShare(WeightOf(weights, last.name).value, last.value);
      var product := Times(WeightOf(weights, last.name).value, last.value);
      assert RawScore(weights, features) == RawScore(weights, init) + product;
      ShareAdds(weights, Names(init), {last.name});
    }
  }

  /** No set of features reaches the reserved weight: the score stays below the rest of the total. */
  lemma ScoreLeavesReserve(weights: seq<Weight>, features: seq<Feature>)
    requires ValidWeights(weights) && Weighted(weights, features) && FeaturesOk(features)
    ensures 0.0 <= Score(weights, features) <= Total(weights) - Share(weights, {RESERVE})
  {
    RawScoreAtMostShare(weights, features);
    ShareAdds(weights, Names(features), {RESERVE});
    ShareAtMostTotal(weights, Names(features) + {RESERVE});
  }

  /** The same features, each at least as high as before. */
  ghost predicate Raised(from: seq<Feature>, to: seq<Feature>) {
    |from| == |to| && forall i | 0 <= i < |from| :: from[i].name == to[i].name && from[i].value <= to[i].value
  }

  lemma {:induction false} RawScoreMonotone(weights: seq<Weight>, from: seq<Feature>, to: seq<Feature>)
    requires forall w | w in weights :: w.weight >= 0.0
    requires Weighted(weights, from) && Weighted(weights, to) && Raised(from, to)
    ensures RawScore(weights, from) <= RawScore(weights, to)
  {
    if from != [] {
      var k := |from| - 1;
      RawScoreMonotone(weights, from[..k], to[..k]);
      assert from[k] in from;
      WeightAtMostShare(weights, from[k].name);
      TimesMonotone(WeightOf(weights, from[k].name).value, from[k].value, to[k].value);
    }
  }

  /** Raising features never moves a wallet to a lower band. */
  lemma RaisingNeverLowersBand(weights: seq<Weight>, thresholds: seq<Threshold>, from: seq<Feature>, to: seq<Feature>)
    requires ValidWeights(weights) && ValidThresholds(thresholds)
    requires Weighted(weights, from) && Weighted(weights, to) && Raised(from, to)
    ensures
      var low, high := Rank(thresholds, Score(weights, from)), Rank(thresholds, Score(weights, to));
      low.Some? && high.Some? && low.value <= high.value
  {
    RawScoreMonotone(weights, from, to);
    BandMonotone(thresholds, Score(weights, from), Score(weights, to));
  }

  // ---- confidence ----

  function ConfidenceRank(c: Confidence): nat {
    match c case LOW => 0 case MEDIUM => 1 case HIGH => 2
  }

  function RankConfidence(i: int): Confidence {
    if i == 1 then MEDIUM else if i == 2 then HIGH else LOW
  }

  function WeightSum(features: seq<Scored>): real {
    if features == [] then 0.0 else WeightSum(features[..|features| - 1]) + features[|features| - 1].weight
  }

  function RankSum(features: seq<Scored>): real {
    if features == [] then 0.0
    else
      var last := features[|features| - 1];
      RankSum(features[..|features| - 1]) + Times(ConfidenceRank(last.confidence) as real, last.weight)
  }

  function AggregateConfidence(features: seq<Scored>): Confidence {
    if WeightSum(features) == 0.0 then LOW
    else RankConfidence((RankSum(features) / WeightSum(features) + 0.5).Floor)
  }

  lemma {:induction false} RankSumBounds(features: seq<Scored>, lo: nat, hi: nat)
    requires forall f | f in features :: f.weight >= 0.0
    requires forall f | f in features && f.weight > 0.0 :: lo <= ConfidenceRank(f.confidence) <= hi
    ensures Times(lo as real, WeightSum(features)) <= RankSum(features) <= Times(hi as real, WeightSum(features))
    ensures WeightSum(features) >= 0.0
  {
    hide Times, ConfidenceRank;
    TimesZero(lo as real, hi as real);
    if features != [] {
      var init, last := features[..|features| - 1], features[|features| - 1];
      assert features == init + [last] && last in features;
      RankSumBounds(init, lo, hi);
      BoundStep(lo as real, hi as real, WeightSum(init), RankSum(init), last.weight,
                ConfidenceRank(last.confidence) as real);
    }
  }

  lemma TimesZero(lo: real, hi: real)
    ensures Times(lo, 0.0) == 0.0 == Times(hi, 0.0)
  {
  }

  lemma BoundStep(lo: real, hi: real, weights: real, ranks: real, w: real, r: real)
    requires w >= 0.0 && Times(lo, weights) <= ranks <= Times(hi, weights) && (w > 0.0 ==> lo <= r <= hi)
    ensures Times(lo, weights + w) <= ranks + Times(r, w) <= Times(hi, weights + w)
  {
    if w > 0.0 {
      TimesMonotone(w, lo, r);
      TimesMonotone(w, r, hi);
    }
  }

  /** The overall confidence lies between the least and greatest of the features that carry weight. */
  lemma ConfidenceBetween(features: seq<Scored>, lo: Confidence, hi: Confidence)
    requires forall f | f in features :: f.weight >= 0.0
    requires forall f | f in features && f.weight > 0.0 ::
      ConfidenceRank(lo) <= ConfidenceRank(f.confidence) <= ConfidenceRank(hi)
    requires WeightSum(features) > 0.0
    ensures ConfidenceRank(lo) <= ConfidenceRank(AggregateConfidence(features)) <= ConfidenceRank(hi)
  {
    RankSumBounds(features, ConfidenceRank(lo), ConfidenceRank(hi));
    AverageBounds(RankSum(features), WeightSum(features), ConfidenceRank(lo), ConfidenceRank(hi));
  }

  lemma AverageBounds(sum: real, weight: real, lo: nat, hi: nat)
    requires weight > 0.0 && Times(lo as real, weight) <= sum <= Times(hi as real, weight)
    ensures lo <= (sum / weight + 0.5).Floor <= hi
  {
    var q := sum / weight;
    assert q * weight == sum;
    Cancel(lo as real, q, weight);
    Cancel(q, hi as real, weight);
  }

  lemma Cancel(x: real, y: real, w: real)
    requires w > 0.0 && x * w <= y * w
    ensures x <= y
  {
    if x > y { Scale(x - y, w); }
  }

  lemma Scale(d: real, w: real)
    requires d > 0.0 && w > 0.0
    ensures d * w > 0.0
  {
  }

  // ---- scoring a set of features ----

  function ScoredOf(weights: seq<Weight>, f: Feature): Scored
    requires WeightOf(weights, f.name).Some?
  {
    var w := WeightOf(weights, f.name).value;
    Scored(f.name, f.value, w, Times(w, f.value), f.confidence)
  }

  function Contributions(scored: seq<Scored>): real {
    if scored == [] then 0.0
    else Contributions(scored[..|scored| - 1]) + scored[|scored| - 1].contribution
  }

  // ---- what a result says ----

  /** The sum of weight times value over the rows of a result. */
  ghost function WeightedSum(rows: seq<Scored>): real {
    if rows == [] then 0.0
    else WeightedSum(rows[..|rows| - 1]) + rows[|rows| - 1].weight * rows[|rows| - 1].value
  }

  /** The last row of that name carries the weight. */
  ghost predicate WeighedBy(weights: seq<Weight>, name: string, w: real) {
    exists i :: 0 <= i < |weights| && weights[i] == Weight(name, w)
                && forall j | i < j < |weights| :: weights[j].feature != name
  }

  lemma {:induction false} WeightOfMeans(weights: seq<Weight>, name: string)
    requires WeightOf(weights, name).Some?
    ensures WeighedBy(weights, name, WeightOf(weights, name).value)
  {
    var init, last := weights[..|weights| - 1], weights[|weights| - 1];
    assert weights == init + [last];
    if last.feature == name {
      assert weights[|init|] == Weight(name, last.weight);
    } else {
      WeightOfMeans(init, name);
      WeighedAppend(init, last, name, WeightOf(init, name).value);
    }
  }

  lemma WeighedAppend(weights: seq<Weight>, last: Weight, name: string, w: real)
    requires WeighedBy(weights, name, w) && last.feature != name
    ensures WeighedBy(weights + [last], name, w)
  {
    var i :| 0 <= i < |weights| && weights[i] == Weight(name, w)
             && forall j | i < j < |weights| :: weights[j].feature != name;
    assert (weights + [last])[i] == Weight(name, w);
  }

  /** The rows are the features in order, each with its stored weight and the product of both. */
  ghost predicate RowsOf(rows: seq<Scored>, features: seq<Feature>, weights: seq<Weight>) {
    && |rows| == |features|
    && forall i | 0 <= i < |rows| ::
      && rows[i].name == features[i].name && rows[i].value == features[i].value
      && rows[i].confidence == features[i].confidence && rows[i].contribution == rows[i].weight * rows[i].value
      && WeighedBy(weights, rows[i].name, rows[i].weight)
  }

  /** The sum itself inside [0, 1], and the nearer end outside. */
  predicate Bounded(sum: real, score: real) {
    score == if sum < 0.0 then 0.0 else if sum > 1.0 then 1.0 else sum
  }

  lemma RowsAre(weights: seq<Weight>, features: seq<Feature>, rows: seq<Scored>)
    requires Weighted(weights, features) && |rows| == |features|
    requires forall j | 0 <= j < |features| :: rows[j] == ScoredOf(weights, features[j])
    ensures RowsOf(rows, features, weights)
  {
    hide WeightOf, WeighedBy;
    forall i | 0 <= i < |features| { WeightOfMeans(weights, features[i].name); }
  }

  lemma RowsMean(weights: seq<Weight>, features: seq<Feature>, rows: seq<Scored>)
    requires Weighted(weights, features) && |rows| == |features|
    requires forall j | 0 <= j < |features| :: rows[j] == ScoredOf(weights, features[j])
    ensures RowsOf(rows, features, weights)
    ensures Bounded(WeightedSum(rows), Score(weights, features))
  {
    hide WeightOf, WeighedBy, RawScore, Contributions, WeightedSum;
    RowsAre(weights, features, rows);
    ContributionsAreScore(weights, features, rows);
    ContributionsSum(rows);
  }

  lemma {:induction false} ContributionsSum(rows: seq<Scored>)
    requires forall j | 0 <= j < |rows| :: rows[j].contribution == rows[j].weight * rows[j].value
    ensures Contributions(rows) == WeightedSum(rows)
  {
    if rows != [] { ContributionsSum(rows[..|rows| - 1]); }
  }

  /** Every feature has one weight row, and besides them there is the reserve. */
  ghost predicate NamedOnce(weights: seq<Weight>, features: seq<Feature>) {
    && (forall i, j | 0 <= i < j < |weights| :: weights[i].feature != weights[j].feature)
    && (forall name :: (exists w :: w in weights && w.feature == name) <==> name == RESERVE || name in Names(features))
  }

  lemma {:induction false} ShareOfOne(weights: seq<Weight>, name: string, w: real)
    requires forall i, j | 0 <= i < j < |weights| :: weights[i].feature != weights[j].feature
    requires Weight(name, w) in weights
    ensures Share(weights, {name}) == w
  {
    var init, last := weights[..|weights| - 1], weights[|weights| - 1];
    var k :| 0 <= k < |weights| && weights[k] == Weight(name, w);
    if k == |weights| - 1 {
      ShareOfNone(init, {name});
    } else {
      assert init[k] == Weight(name, w);
      ShareOfOne(init, name, w);
    }
  }

  lemma {:induction false} ShareOfNone(weights: seq<Weight>, names: set<string>)
    requires forall i | 0 <= i < |weights| :: weights[i].feature !in names
    ensures Share(weights, names) == 0.0
  {
    if weights != [] { ShareOfNone(weights[..|weights| - 1], names); }
  }

  lemma {:induction false} ShareOfAll(weights: seq<Weight>, names: set<string>)
    requires forall w | w in weights :: w.feature in names
    ensures Share(weights, names) == Total(weights)
  {
    if weights != [] {
      assert weights[|weights| - 1] in weights;
      ShareOfAll(weights[..|weights| - 1], names);
    }
  }

  lemma {:induction false} RowWeights(weights: seq<Weight>, features: seq<Feature>, rows: seq<Scored>)
    requires forall i, j | 0 <= i < j < |weights| :: weights[i].feature != weights[j].feature
    requires FeaturesOk(features) && RowsOf(rows, features, weights)
    ensures WeightSum(rows) == Share(weights, Names(features))
  {
    if features == [] {
      assert Names(features) == {};
      ShareOfNone(weights, {});
    } else {
      hide Share, Names;
      var k := |rows| - 1;
      NewName(features);
      RowWeights(weights, features[..k], rows[..k]);
      assert WeighedBy(weights, rows[k].name, rows[k].weight);
      ShareOfOne(weights, rows[k].name, rows[k].weight);
      ShareAdds(weights, Names(features[..k]), {features[k].name});
    }
  }

  lemma {:induction false} SumOfEqualValues(rows: seq<Scored>, v: real)
    requires forall i | 0 <= i < |rows| :: rows[i].value == v
    ensures WeightedSum(rows) == v * WeightSum(rows)
  {
    if rows != [] {
      var init, last := rows[..|rows| - 1], rows[|rows| - 1];
      SumOfEqualValues(init, v);
      assert v * (WeightSum(init) + last.weight) == v * WeightSum(init) + last.weight * v;
    }
  }

  lemma AllButReserve(weights: seq<Weight>, features: seq<Feature>, reserve: real)
    requires NamedOnce(weights, features) && FeaturesOk(features) && Weight(RESERVE, reserve) in weights
    ensures Share(weights, Names(features)) == Total(weights) - reserve
  {
    hide Share, Total;
    ShareOfOne(weights, RESERVE, reserve);
    forall w | w in weights ensures w.feature in Names(features) + {RESERVE} {}
    ShareAdds(weights, Names(features), {RESERVE});
    ShareOfAll(weights, Names(features) + {RESERVE});
  }

  /** All features at one value add up to that value times all the weight but the reserve. */
  lemma UniformSum(weights: seq<Weight>, features: seq<Feature>, rows: seq<Scored>, v: real, reserve: real)
    requires NamedOnce(weights, features) && FeaturesOk(features) && RowsOf(rows, features, weights)
    requires Weight(RESERVE, reserve) in weights && forall f | f in features :: f.value == v
    ensures WeightedSum(rows) == v * (Total(weights) - reserve)
  {
    hide WeighedBy, Share, Total, WeightedSum, WeightSum;
    forall i | 0 <= i < |features| ensures rows[i].value == v { assert features[i] in features; }
    SumOfEqualValues(rows, v);
    RowWeights(weights, features, rows);
    AllButReserve(weights, features, reserve);
  }

  /** Raising one feature raises the sum by its weight times the raise. */
  lemma {:induction false} RaisedByWeight(rows: seq<Scored>, i: nat, d: real)
    requires i < |rows|
    ensures WeightedSum(rows[i := rows[i].(value := rows[i].value + d)]) == WeightedSum(rows) + rows[i].weight * d
  {
    var k := |rows| - 1;
    var raised := rows[i := rows[i].(value := rows[i].value + d)];
    if i < k {
      assert raised[..k] == rows[..k][i := rows[i].(value := rows[i].value + d)];
      RaisedByWeight(rows[..k], i, d);
    } else {
      assert raised[..k] == rows[..k] && raised[k] == rows[k].(value := rows[k].value + d);
      Distributes(rows[k].weight, rows[k].value, d);
    }
  }

  lemma Distributes(a: real, x: real, y: real)
    ensures a * (x + y) == a * x + a * y
  {
  }

  /** The confidence whose rank is nearest the weighted mean of the ranks, the higher of two as near. */
  ghost predicate NearestConfidence(rows: seq<Scored>, c: Confidence) {
    if WeightSum(rows) == 0.0 then c == LOW
    else
      var mean := RankSum(rows) / WeightSum(rows);
      match c
      case LOW => mean < 0.5
      case MEDIUM => 0.5 <= mean < 1.5
      case HIGH => 1.5 <= mean
  }

  lemma ConfidenceNearest(rows: seq<Scored>)
    requires forall f | f in rows :: f.weight >= 0.0
    ensures NearestConfidence(rows, AggregateConfidence(rows))
  {
    hide RankSum, WeightSum;
    RankSumBounds(rows, 0, 2);
    if WeightSum(rows) != 0.0 { AverageBounds(RankSum(rows), WeightSum(rows), 0, 2); }
  }

  lemma RowsWeighNothingNegative(weights: seq<Weight>, features: seq<Feature>, rows: seq<Scored>)
    requires ValidWeights(weights) && RowsOf(rows, features, weights)
    ensures forall f | f in rows :: f.weight >= 0.0
  {
    forall f | f in rows ensures f.weight >= 0.0 {
      var i :| 0 <= i < |rows| && rows[i] == f;
      assert WeighedBy(weights, rows[i].name, rows[i].weight);
    }
  }

  method ScoreFeatures(features: seq<Feature>, weights: seq<Weight>, thresholds: seq<Threshold>)
    returns (r: Result<ScoreResult>)
    ensures r.Ok? <==> ValidWeights(weights) && Weighted(weights, features) && ValidThresholds(thresholds)
    ensures Weighted(weights, features) <==> forall f | f in features :: HasRow(weights, f.name)
    ensures r.Fault? && r.fault.NoWeightFor? ==> FirstWithoutRow(weights, features, r.fault.feature)
    ensures r.Ok? ==>
      && r.value.score == Score(weights, features) && 0.0 <= r.value.score <= 1.0
      && |r.value.features| == |features|
      && (forall i | 0 <= i < |features| :: r.value.features[i] == ScoredOf(weights, features[i]))
      && RowsOf(r.value.features, features, weights)
      && Bounded(WeightedSum(r.value.features), r.value.score)
      && r.value.confidence == AggregateConfidence(r.value.features)
      && NearestConfidence(r.value.features, r.value.confidence)
      && Rank(thresholds, r.value.score).Some?
      && r.value.band == Sort(thresholds, ByMin)[Rank(thresholds, r.value.score).value].band
  {
    hide ValidThresholds, Rank, ValidWeights, HasRow, FirstWithoutRow, WeightOf, RowsOf, Bounded, WeightedSum;
    AllWeighted(weights, features);
    var fault := ValidateWeights(weights);
    if fault.Some? { return Fault(fault.value); }
    var scored := [];
    for k := 0 to |features|
      invariant forall j | 0 <= j < k :: WeightOf(weights, features[j].name).Some?
      invariant |scored| == k && forall j | 0 <= j < k :: scored[j] == ScoredOf(weights, features[j])
    {
      var weight := WeightOf(weights, features[k].name);
      if weight.None? {
        assert features[k] in features;
        FoundWithout(weights, features, k);
        return Fault(NoWeightFor(features[k].name));
      }
      scored := scored + [ScoredOf(weights, features[k])];
    }
    ContributionsAreScore(weights, features, scored);
    RowsMean(weights, features, scored);
    RowsWeighNothingNegative(weights, features, scored);
    ConfidenceNearest(scored);
    var clamped := Clamp(Contributions(scored));
    var band := BandFor(clamped, thresholds);
    if band.Fault? { return Fault(band.fault); }
    r := Ok(ScoreResult(clamped, band.value, AggregateConfidence(scored), scored));
  }

  lemma {:induction false} ContributionsAreScore(weights: seq<Weight>, features: seq<Feature>, scored: seq<Scored>)
    requires Weighted(weights, features) && |scored| == |features|
    requires forall j | 0 <= j < |features| :: scored[j] == ScoredOf(weights, features[j])
    ensures Contributions(scored) == RawScore(weights, features)
  {
    if features != [] {
      var k := |features| - 1;
      ContributionsAreScore(weights, features[..k], scored[..k]);
    }
  }
}
