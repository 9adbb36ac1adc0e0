/** The largest number of instants that fit in one window, by a two-pointer sweep. */
module WindowSweep {
  import opened Common
  import opened Sorting
  import opened OrderStatistics

  predicate Earlier(x: real, y: real) { x <= y }

  function Within(lo: real, hi: real): real -> bool { t => lo <= t <= hi }

  function CountIn(times: seq<real>, lo: real, hi: real): (n: nat)
    ensures n <= |times|
  {
    CountOf(times, Within(lo, hi))
  }

  /** How many instants a window holds that opens at `start`. */
  function Held(times: seq<real>, start: real, width: real): (n: nat)
    ensures n <= |times|
  {
    CountIn(times, start, start + width)
  }

  /** The fullest of the windows that open at one of the `starts`. */
  function FullestFrom(starts: seq<real>, times: seq<real>, width: real): (n: nat)
    ensures n <= |times|
  {
    if starts == [] then 0
    else Max(Held(times, starts[0], width), FullestFrom(starts[1..], times, width))
  }

  /** One instant always counts, even against a window of negative width. */
  function FullestWindow(times: seq<real>, width: real): (n: nat)
    ensures n <= |times|
  {
    if times == [] then 0 else Max(1, FullestFrom(times, times, width))
  }

  // ---- the specification means what it says ----

  lemma {:induction false} FullestFromBounds(starts: seq<real>, times: seq<real>, width: real)
    ensures forall s | s in starts :: Held(times, s, width) <= FullestFrom(starts, times, width)
    ensures FullestFrom(starts, times, width) > 0 ==>
      exists s :: s in starts && Held(times, s, width) == FullestFrom(starts, times, width)
  {
    if starts != [] {
      FullestFromBounds(starts[1..], times, width);
      assert starts[0] in starts;
      if FullestFrom(starts, times, width) > 0 && Held(times, starts[0], width) != FullestFrom(starts, times, width) {
        var s :| s in starts[1..] && Held(times, s, width) == FullestFrom(starts[1..], times, width);
        assert s in starts;
      }
    }
  }

  lemma {:induction false} CountWithin(times: seq<real>, lo: real, hi: real, lo': real, hi': real)
    requires forall t | t in times && lo <= t <= hi :: lo' <= t <= hi'
    ensures CountIn(times, lo, hi) <= CountIn(times, lo', hi')
  {
    if times != [] {
      Uncons(times);
      CountWithin(times[1..], lo, hi, lo', hi');
    }
  }

  lemma {:induction false} FirstIn(times: seq<real>, lo: real, hi: real) returns (first: real)
    requires CountIn(times, lo, hi) > 0
    ensures first in times && lo <= first <= hi
    ensures forall t | t in times && lo <= t <= hi :: first <= t
  {
    Uncons(times);
    if lo <= times[0] <= hi {
      first := times[0];
      if CountIn(times[1..], lo, hi) > 0 {
        var other := FirstIn(times[1..], lo, hi);
        if other < first { first := other; }
      } else {
        NoneIn(times[1..], lo, hi);
      }
    } else {
      first := FirstIn(times[1..], lo, hi);
    }
  }

  lemma {:induction false} NoneIn(times: seq<real>, lo: real, hi: real)
    requires CountIn(times, lo, hi) == 0
    ensures forall t | t in times :: !(lo <= t <= hi)
  {
    if times != [] {
      Uncons(times);
      NoneIn(times[1..], lo, hi);
    }
  }

  /** No window of this width, wherever it opens, holds more; and some window holds as many. */
  lemma FullestWindowIsMaximum(times: seq<real>, width: real)
    requires width >= 0.0
    ensures forall s :: Held(times, s, width) <= FullestWindow(times, width)
    ensures times != [] ==> exists s :: s in times && Held(times, s, width) == FullestWindow(times, width)
  {
    FullestFromBounds(times, times, width);
    forall s ensures Held(times, s, width) <= FullestWindow(times, width) {
      if Held(times, s, width) > 0 {
        var first := FirstIn(times, s, s + width);
        CountWithin(times, s, s + width, first, first + width);
      }
    }
    if times != [] {
      OwnWindow(times, width);
    }
  }

  lemma OwnWindow(times: seq<real>, width: real)
    requires times != [] && width >= 0.0
    ensures FullestFrom(times, times, width) >= 1
  {
    FullestFromBounds(times, times, width);
    assert times[0] in times;
    assert Held(times, times[0], width) >= 1;
  }

  // ---- counting in a sorted list ----

  lemma {:induction false} CountAll(xs: seq<real>, lo: real, hi: real)
    ensures (forall t | t in xs :: lo <= t <= hi) ==> CountIn(xs, lo, hi) == |xs|
    ensures (forall t | t in xs :: !(lo <= t <= hi)) ==> CountIn(xs, lo, hi) == 0
  {
    if xs != [] {
      Uncons(xs);
      CountAll(xs[1..], lo, hi);
    }
  }

  /** When exactly the positions `a` to `b` can be in the window, there are at most that many. */
  lemma CountSlice(xs: seq<real>, a: nat, b: nat, lo: real, hi: real)
    requires a <= b <= |xs|
    requires forall k | 0 <= k < |xs| && lo <= xs[k] <= hi :: a <= k < b
    ensures CountIn(xs, lo, hi) <= b - a
  {
    assert xs == xs[..a] + xs[a..b] + xs[b..];
    CountConcat(xs[..a] + xs[a..b], xs[b..], Within(lo, hi));
    CountConcat(xs[..a], xs[a..b], Within(lo, hi));
    CountAll(xs[..a], lo, hi);
    CountAll(xs[b..], lo, hi);
  }

  /** When the positions `a` to `b` are all in the window, there are at least that many. */
  lemma CountRun(xs: seq<real>, a: nat, b: nat, lo: real, hi: real)
    requires a <= b <= |xs|
    requires forall k | a <= k < b :: lo <= xs[k] <= hi
    ensures CountIn(xs, lo, hi) >= b - a
  {
    assert xs == xs[..a] + xs[a..b] + xs[b..];
    CountConcat(xs[..a] + xs[a..b], xs[b..], Within(lo, hi));
    CountConcat(xs[..a], xs[a..b], Within(lo, hi));
    CountAll(xs[a..b], lo, hi);
  }

  // ---- the sweep ----

  /** `left` is the first position whose instant is within `width` before that of `right`. */
  ghost predicate Reach(sorted: seq<real>, width: real, left: int, right: int) {
    && 0 <= left <= |sorted| && 0 <= right < |sorted|
    && (forall k | 0 <= k < left :: sorted[right] - sorted[k] > width)
    && (left < |sorted| ==> sorted[right] - sorted[left] <= width)
  }

  /** `best` covers every window that closes before position `upTo`, and some window reaches it. */
  ghost predicate Swept(sorted: seq<real>, width: real, upTo: nat, best: int) {
    && (forall l, r | 0 <= r < upTo && Reach(sorted, width, l, r) :: r - l + 1 <= best)
    && (best == 1 || exists l, r :: 0 <= r < upTo && Reach(sorted, width, l, r) && r - l + 1 == best)
  }

  lemma SweptStart(sorted: seq<real>, width: real)
    ensures Swept(sorted, width, 0, 1)
  {
  }

  lemma OrderEarlier()
    ensures TotalPreorder(Earlier)
  {
  }

  lemma ReachUnique(sorted: seq<real>, width: real, l: int, l': int, right: int)
    requires Reach(sorted, width, l, right) && Reach(sorted, width, l', right)
    ensures l == l'
  {
  }

  lemma SweepStep(sorted: seq<real>, width: real, left: int, right: nat, best: int)
    requires Swept(sorted, width, right, best) && Reach(sorted, width, left, right)
    ensures Swept(sorted, width, right + 1, Max(best, right - left + 1))
  {
    var next := Max(best, right - left + 1);
    forall l, r | 0 <= r < right + 1 && Reach(sorted, width, l, r) ensures r - l + 1 <= next {
      if r == right { ReachUnique(sorted, width, l, left, right); }
    }
    if next == best && best != 1 {
      var l, r :| 0 <= r < right && Reach(sorted, width, l, r) && r - l + 1 == best;
      assert 0 <= r < right + 1;
    }
  }

  lemma ReachExists(sorted: seq<real>, width: real, right: nat, from: nat) returns (left: nat)
    requires right < |sorted| && from <= |sorted|
    requires forall k | 0 <= k < from :: sorted[right] - sorted[k] > width
    ensures Reach(sorted, width, left, right)
    decreases |sorted| - from
  {
    left := from;
    if from < |sorted| && sorted[right] - sorted[from] > width {
      left := ReachExists(sorted, width, right, from + 1);
    }
  }

  /** A window opening at a member closes at the last member it holds. */
  lemma WindowBelow(sorted: seq<real>, width: real, s: real, best: int)
    requires SortedBy(sorted, Earlier) && Swept(sorted, width, |sorted|, best) && width >= 0.0
    requires s in sorted
    ensures Held(sorted, s, width) <= best
  {
    var first :| 0 <= first < |sorted| && sorted[first] == s;
    var r := first;
    while r + 1 < |sorted| && sorted[r + 1] <= s + width
      invariant first <= r < |sorted| && sorted[r] <= s + width
    {
      r := r + 1;
    }
    var l := ReachExists(sorted, width, r, 0);
    forall k | 0 <= k < |sorted| && s <= sorted[k] <= s + width ensures l <= k < r + 1 {
      assert k <= r || k == r + 1 || Earlier(sorted[r + 1], sorted[k]);
    }
    if l <= r + 1 { CountSlice(sorted, l, r + 1, s, s + width); }
  }

  lemma {:induction false} FullestAtMost(starts: seq<real>, times: seq<real>, width: real, best: nat)
    requires forall s | s in starts :: Held(times, s, width) <= best
    ensures FullestFrom(starts, times, width) <= best
  {
    if starts != [] {
      Uncons(starts);
      FullestAtMost(starts[1..], times, width, best);
    }
  }

  lemma {:induction false} NothingInNegative(times: seq<real>, s: real, width: real)
    requires width < 0.0
    ensures Held(times, s, width) == 0
  {
    CountAll(times, s, s + width);
  }

  lemma HeldSorted(times: seq<real>, s: real, width: real)
    ensures Held(Sort(times, Earlier), s, width) == Held(times, s, width)
  {
    CountSorted(times, Earlier, Within(s, s + width));
  }

  lemma SweptWitness(sorted: seq<real>, width: real, upTo: nat, best: nat) returns (l: nat, r: nat)
    requires Swept(sorted, width, upTo, best) && best > 1
    ensures l < r && Reach(sorted, width, l, r) && r - l + 1 == best
  {
    l, r :| 0 <= r < upTo && Reach(sorted, width, l, r) && r - l + 1 == best;
  }

  /** What the finished sweep has found is the fullest window. */
  lemma SweepDone(times: seq<real>, width: real, best: nat)
    requires times != [] && best >= 1
    requires Swept(Sort(times, Earlier), width, |times|, best)
    ensures best == FullestWindow(times, width)
  {
    hide FullestFrom, Held, Sort, Swept, TotalPreorder;
    var sorted := Sort(times, Earlier);
    OrderEarlier();
    SortCorrect(times, Earlier);
    SortMembers(times, Earlier);
    forall s | s in times ensures Held(times, s, width) <= best {
      HeldSorted(times, s, width);
      if width < 0.0 { NothingInNegative(times, s, width); } else { WindowBelow(sorted, width, s, best); }
    }
    FullestAtMost(times, times, width, best);
    if best > 1 {
      var l, r := SweptWitness(sorted, width, |times|, best);
      SweepAttained(times, sorted, width, l, r);
    }
  }

  lemma SweepAttained(times: seq<real>, sorted: seq<real>, width: real, l: nat, r: nat)
    requires sorted == Sort(times, Earlier) && SortedBy(sorted, Earlier)
    requires forall x :: x in sorted <==> x in times
    requires l < r && Reach(sorted, width, l, r)
    ensures FullestFrom(times, times, width) >= r - l + 1
  {
    hide FullestFrom, CountIn, Sort;
    var s := sorted[l];
    assert s in sorted;
    forall k | l <= k < r + 1 ensures s <= sorted[k] <= s + width {
      assert k == l || Earlier(sorted[l], sorted[k]);
      assert k == r || Earlier(sorted[k], sorted[r]);
    }
    CountRun(sorted, l, r + 1, s, s + width);
    HeldSorted(times, s, width);
    FullestFromBounds(times, times, width);
  }

  /** Advancing past the end stops the scan: a missing element compares as not a number. */
  method LargestWindowCluster(times: seq<real>, width: real) returns (best: nat)
    ensures best == FullestWindow(times, width)
  {
    hide Swept, Sort, FullestWindow, TotalPreorder;
    if |times| == 0 { return 0; }
    var sorted := Sort(times, Earlier);
    OrderEarlier();
    SortCorrect(times, Earlier);
    SweptStart(sorted, width);
    best := 1;
    var left := 0;
    for right := 0 to |sorted|
      invariant 0 <= left <= |sorted| && best >= 1
      invariant right < |sorted| ==> forall k | 0 <= k < left :: sorted[right] - sorted[k] > width
      invariant Swept(sorted, width, right, best)
    {
      while left < |sorted| && sorted[right] - sorted[left] > width
        invariant 0 <= left <= |sorted|
        invariant forall k | 0 <= k < left :: sorted[right] - sorted[k] > width
      {
        left := left + 1;
      }
      SweepStep(sorted, width, left, right, best);
      best := Max(best, right - left + 1);
      if right + 1 < |sorted| { assert Earlier(sorted[right], sorted[right + 1]); }
    }
    SweepDone(times, width, best);
  }
}
