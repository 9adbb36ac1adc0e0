/** Features averaged over all pairs of wallets: shared counterparties and protocol behaviour. */
module PairAverages {
  import opened Common
  import CapabilityTypes
  import opened Lcs
  import opened Pairwise

  /** Scores of item `i` against the items from `i + 1` up to `j`. */
  function RowSum<T(!new)>(xs: seq<T>, score: (T, T) -> real, i: nat, j: nat): real
    requires i < j <= |xs|
    decreases j
  {
    if j == i + 1 then 0.0 else RowSum(xs, score, i, j - 1) + score(xs[i], xs[j - 1])
  }

  /** Scores of all pairs whose first item is before `i`. */
  function PairSum<T(!new)>(xs: seq<T>, score: (T, T) -> real, i: nat): real
    requires i <= |xs|
  {
    if i == 0 then 0.0 else PairSum(xs, score, i - 1) + RowSum(xs, score, i - 1, |xs|)
  }

  /** The number of pairs whose first item is before `i`, out of `n` items. */
  function PairCount(n: nat, i: nat): nat
    requires i <= n
  {
    if i == 0 then 0 else PairCount(n, i - 1) + (n - i)
  }

  function PairMean<T(!new)>(xs: seq<T>, score: (T, T) -> real): real {
    if |xs| < 2 then 0.0 else (PairSecond(|xs|); PairSum(xs, score, |xs|) / PairCount(|xs|, |xs|) as real)
  }

  /** n items make n(n-1)/2 pairs. */
  lemma {:induction false} PairTotal(n: nat, i: nat)
    requires i <= n
    ensures 2 * PairCount(n, i) == i * (2 * n - i - 1)
  {
    if i > 0 {
      PairTotal(n, i - 1);
      assert (i - 1) * (2 * n - (i - 1) - 1) + 2 * (n - i) == i * (2 * n - i - 1);
    }
  }

  lemma PairSecond(n: nat)
    requires n >= 2
    ensures PairCount(n, n) > 0
  {
    PairTotal(n, n);
    assert n * (2 * n - n - 1) == n * (n - 1);
    assert n * (n - 1) > 0;
  }

  ghost predicate UnitScore<T(!new)>(score: (T, T) -> real) {
    forall x, y :: 0.0 <= score(x, y) <= 1.0
  }

  lemma {:induction false} RowSumRange<T(!new)>(xs: seq<T>, score: (T, T) -> real, i: nat, j: nat)
    requires i < j <= |xs| && UnitScore(score)
    ensures 0.0 <= RowSum(xs, score, i, j) <= (j - i - 1) as real
    ensures RowSum(xs, score, i, j) == (j - i - 1) as real <==> forall k | i < k < j :: score(xs[i], xs[k]) == 1.0
    decreases j
  {
    if j > i + 1 { RowSumRange(xs, score, i, j - 1); }
  }

  lemma {:induction false} PairSumRange<T(!new)>(xs: seq<T>, score: (T, T) -> real, i: nat)
    requires i <= |xs| && UnitScore(score)
    ensures 0.0 <= PairSum(xs, score, i) <= PairCount(|xs|, i) as real
    ensures PairSum(xs, score, i) == PairCount(|xs|, i) as real <==>
      forall k, l | 0 <= k < i && k < l < |xs| :: score(xs[k], xs[l]) == 1.0
  {
    if i > 0 {
      PairSumRange(xs, score, i - 1);
      RowSumRange(xs, score, i - 1, |xs|);
    }
  }

  /** An average of scores between 0 and 1 is between 0 and 1, and 1 only when every pair scores 1. */
  lemma PairMeanRange<T(!new)>(xs: seq<T>, score: (T, T) -> real)
    requires UnitScore(score)
    ensures 0.0 <= PairMean(xs, score) <= 1.0
    ensures PairMean(xs, score) == 1.0 <==>
      |xs| >= 2 && forall k, l | 0 <= k < l < |xs| :: score(xs[k], xs[l]) == 1.0
  {
    if |xs| >= 2 {
      PairSumRange(xs, score, |xs|);
      PairSecond(|xs|);
      Share(PairSum(xs, score, |xs|), PairCount(|xs|, |xs|) as real);
    }
  }

  lemma Share(n: real, d: real)
    requires 0.0 <= n <= d && d > 0.0
    ensures 0.0 <= n / d <= 1.0
    ensures n / d == 1.0 <==> n == d
  {
    assert n / d * d == n;
  }

  // ---- shared counterparties ----

  method SharedCounterparty(wallets: seq<seq<Evidence>>) returns (value: real)
    ensures var sets := CounterpartySets(wallets);
      value == PairMean(sets, Jaccard)
    ensures 0.0 <= value <= 1.0
  {
    hide Jaccard, RowSum, CounterpartySets;
    var sets := CounterpartySets(wallets);
    SharedCounterpartyRange(sets);
    if |wallets| < 2 { return 0.0; }
    PairSecond(|sets|);
    var sum, pairs := 0.0, 0;
    for i := 0 to |sets|
      invariant sum == PairSum(sets, Jaccard, i) && pairs == PairCount(|sets|, i)
    {
      sum, pairs := AddCounterpartyRow(sets, i, sum, pairs);
    }
    value := if pairs == 0 then 0.0 else sum / pairs as real;
  }

  method AddCounterpartyRow(sets: seq<set<string>>, i: nat, sum: real, pairs: nat) returns (sum': real, pairs': nat)
    requires i < |sets|
    ensures sum' == sum + RowSum(sets, Jaccard, i, |sets|) && pairs' == pairs + (|sets| - i - 1)
  {
    hide Jaccard;
    sum', pairs' := sum, pairs;
    for j := i + 1 to |sets|
      invariant sum' == sum + RowSum(sets, Jaccard, i, j) && pairs' == pairs + (j - i - 1)
    {
      var score := CountJaccard(sets[i], sets[j]);
      sum', pairs' := sum' + score, pairs' + 1;
    }
  }

  /** The counterparties of one wallet, however their addresses are spelt. */
  function Touched(events: seq<Evidence>): set<string> {
    set e | e in events && Known(e.counterparty) :: CapabilityTypes.ToLower(e.counterparty.value)
  }

  function CounterpartySets(wallets: seq<seq<Evidence>>): (sets: seq<set<string>>)
    ensures |sets| == |wallets|
  {
    seq(|wallets|, i requires 0 <= i < |wallets| => Touched(wallets[i]))
  }

  /** Full marks take every wallet touching the same, non-empty, set of counterparties. */
  lemma SharedCounterpartyRange(sets: seq<set<string>>)
    ensures 0.0 <= PairMean(sets, Jaccard) <= 1.0
    ensures PairMean(sets, Jaccard) == 1.0 <==>
      |sets| >= 2 && forall k, l | 0 <= k < l < |sets| :: sets[k] == sets[l] != {}
  {
    forall a, b ensures 0.0 <= Jaccard(a, b) <= 1.0 && (Jaccard(a, b) == 1.0 <==> a == b && a != {}) {
      JaccardRange(a, b);
    }
    PairMeanRange(sets, Jaccard);
  }

  // ---- protocol behaviour ----

  /** Longest common subsequence over the longer length. */
  function Similarity(a: seq<string>, b: seq<string>): real {
    if Max(|a|, |b|) == 0 then 0.0 else Length(a, b) as real / Max(|a|, |b|) as real
  }

  lemma SimilarityRange(a: seq<string>, b: seq<string>)
    ensures 0.0 <= Similarity(a, b) <= 1.0
    ensures Similarity(a, b) == 1.0 <==> a == b && a != []
  {
    LengthFull(a, b);
    if Max(|a|, |b|) > 0 { Share(Length(a, b) as real, Max(|a|, |b|) as real); }
  }

  function Capped(wallets: seq<seq<string>>, maxLength: nat): (r: seq<seq<string>>)
    ensures |r| == |wallets|
  {
    seq(|wallets|, i requires 0 <= i < |wallets| => wallets[i][..Min(|wallets[i]|, maxLength)])
  }

  predicate NonEmpty(s: seq<string>) { s != [] }

  /** With fewer than two wallets, or fewer than two with any evidence, the feature is empty. */
  function BehaviorSimilarity(seqs: seq<seq<string>>): real {
    if |seqs| < 2 || |Filter(seqs, NonEmpty)| < 2 then 0.0 else PairMean(seqs, Similarity)
  }

  /** In [0, 1], and full only when every wallet walked the same non-empty path. */
  lemma BehaviorSimilarityRange(seqs: seq<seq<string>>)
    ensures 0.0 <= BehaviorSimilarity(seqs) <= 1.0
    ensures BehaviorSimilarity(seqs) == 1.0 ==> forall k, l | 0 <= k < l < |seqs| :: seqs[k] == seqs[l] != []
  {
    forall a, b ensures 0.0 <= Similarity(a, b) <= 1.0 && (Similarity(a, b) == 1.0 <==> a == b && a != []) {
      SimilarityRange(a, b);
    }
    PairMeanRange(seqs, Similarity);
  }

  method ProtocolBehaviorSimilarity(wallets: seq<seq<string>>, maxLength: nat) returns (value: real)
    ensures value == BehaviorSimilarity(Capped(wallets, maxLength))
    ensures 0.0 <= value <= 1.0
  {
    hide Similarity, RowSum, Capped, Filter;
    var seqs := Capped(wallets, maxLength);
    BehaviorSimilarityRange(seqs);
    if |wallets| < 2 { return 0.0; }
    if |Filter(seqs, NonEmpty)| < 2 { return 0.0; }
    PairSecond(|seqs|);
    var sum, pairs := 0.0, 0;
    for i := 0 to |seqs|
      invariant sum == PairSum(seqs, Similarity, i) && pairs == PairCount(|seqs|, i)
    {
      sum, pairs := AddBehaviorRow(seqs, i, sum, pairs);
    }
    value := if pairs == 0 then 0.0 else sum / pairs as real;
  }

  method AddBehaviorRow(seqs: seq<seq<string>>, i: nat, sum: real, pairs: nat) returns (sum': real, pairs': nat)
    requires i < |seqs|
    ensures sum' == sum + RowSum(seqs, Similarity, i, |seqs|) && pairs' == pairs + (|seqs| - i - 1)
  {
    hide IsLongestCommon, Length;
    sum', pairs' := sum, pairs;
    for j := i + 1 to |seqs|
      invariant sum' == sum + RowSum(seqs, Similarity, i, j) && pairs' == pairs + (j - i - 1)
    {
      var longest := Max(|seqs[i]|, |seqs[j]|);
      if longest != 0 {
        var common := LcsLength(seqs[i], seqs[j]);
        sum' := sum' + common as real / longest as real;
      }
      pairs' := pairs' + 1;
    }
  }

  // ---- the averages, spelled out ----

  /** Below two items there is no pair; two have one; and n have n(n-1)/2, over which the sum is spread. */
  lemma PairMeanExact<T(!new)>(xs: seq<T>, score: (T, T) -> real)
    ensures |xs| < 2 ==> PairMean(xs, score) == 0.0
    ensures |xs| == 2 ==> PairMean(xs, score) == score(xs[0], xs[1])
    ensures |xs| >= 2 ==>
      PairMean(xs, score) * (|xs| * (|xs| - 1)) as real == 2.0 * PairSum(xs, score, |xs|)
  {
    var n := |xs|;
    if n >= 2 {
      PairSecond(n);
      PairTotal(n, n);
      assert n * (2 * n - n - 1) == n * (n - 1);
      var sum, pairs := PairSum(xs, score, n), PairCount(n, n) as real;
      assert (n * (n - 1)) as real == 2.0 * pairs;
      assert sum / pairs * pairs == sum;
      if n == 2 { OnePair(xs, score); }
    }
  }

  lemma OnePair<T(!new)>(xs: seq<T>, score: (T, T) -> real)
    requires |xs| == 2
    ensures PairSum(xs, score, 2) == score(xs[0], xs[1]) && PairCount(2, 2) == 1
  {
    assert RowSum(xs, score, 0, 1) == 0.0 && RowSum(xs, score, 1, 2) == 0.0;
    assert PairSum(xs, score, 1) == PairSum(xs, score, 0) + RowSum(xs, score, 0, 2);
    assert PairCount(2, 1) == 1;
  }

  /** Similarity times the longer length is the length of a longest common subsequence; two empty paths have none. */
  lemma SimilarityExact(a: seq<string>, b: seq<string>)
    ensures |a| >= |b| ==> Similarity(a, b) * |a| as real == Length(a, b) as real
    ensures |a| <= |b| ==> Similarity(a, b) * |b| as real == Length(a, b) as real
    ensures a == [] || b == [] ==> Similarity(a, b) == 0.0
  {
    hide IsLongestCommon;
    LengthFull(a, b);
    var longer := Max(|a|, |b|) as real;
    if longer > 0.0 { assert Length(a, b) as real / longer * longer == Length(a, b) as real; }
    if a == [] || b == [] { NothingInCommon(a, b); }
  }

  lemma NothingInCommon(a: seq<string>, b: seq<string>)
    requires a == [] || b == []
    ensures Length(a, b) == 0
  {
  }

  /** The feature is empty unless two wallets show some behaviour, and is then the mean over all pairs. */
  lemma BehaviorSimilarityExact(seqs: seq<seq<string>>)
    ensures
      if exists i, j :: 0 <= i < j < |seqs| && seqs[i] != [] && seqs[j] != []
      then BehaviorSimilarity(seqs) == PairMean(seqs, Similarity) else BehaviorSimilarity(seqs) == 0.0
  {
    hide Similarity, PairMean;
    NonEmptyPair(seqs);
  }

  lemma {:induction false} NonEmptyPair(seqs: seq<seq<string>>)
    ensures |Filter(seqs, NonEmpty)| >= 1 <==> exists i :: 0 <= i < |seqs| && seqs[i] != []
    ensures |Filter(seqs, NonEmpty)| >= 2 <==> exists i, j :: 0 <= i < j < |seqs| && seqs[i] != [] && seqs[j] != []
  {
    if seqs != [] {
      var rest := seqs[1..];
      NonEmptyPair(rest);
      assert forall i | 0 <= i < |rest| :: rest[i] == seqs[i + 1];
      if i, j :| 0 <= i < j < |seqs| && seqs[i] != [] && seqs[j] != [] {
        assert rest[j - 1] != [];
        if i > 0 { assert rest[i - 1] != []; }
      }
      if i :| 0 <= i < |rest| && rest[i] != [] { assert seqs[i + 1] != []; }
      if i, j :| 0 <= i < j < |rest| && rest[i] != [] && rest[j] != [] {
        assert seqs[i + 1] != [] && seqs[j + 1] != [];
      }
    }
  }

  /** A path is kept whole up to the cap, and is cut to its beginning beyond. */
  lemma CappedExact(wallets: seq<seq<string>>, maxLength: nat, i: nat)
    requires i < |wallets|
    ensures |wallets[i]| <= maxLength ==> Capped(wallets, maxLength)[i] == wallets[i]
    ensures |wallets[i]| > maxLength ==> Capped(wallets, maxLength)[i] == wallets[i][..maxLength]
  {
  }

  /** What a wallet touched: the lower-cased counterparties that are there and not empty. */
  lemma TouchedExact(events: seq<Evidence>, address: string)
    ensures address in Touched(events) <==>
      exists k, name :: 0 <= k < |events| && events[k].counterparty == Some(name) && name != ""
                        && CapabilityTypes.ToLower(name) == address
  {
    if address in Touched(events) {
      var e :| e in events && Known(e.counterparty) && CapabilityTypes.ToLower(e.counterparty.value) == address;
      var k :| 0 <= k < |events| && events[k] == e;
      assert events[k].counterparty == Some(e.counterparty.value);
    }
  }
}
