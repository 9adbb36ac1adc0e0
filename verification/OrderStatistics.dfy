/** What a majority of a sample says about the middle of its sorted form. */
module OrderStatistics {
  import opened Common
  import opened Sorting

  /** A set of values with no gap in it, as far as the order can tell. */
  ghost predicate Convex<T(!new)>(le: (T, T) -> bool, inside: T -> bool) {
    forall x, y, z :: le(x, y) && le(y, z) && inside(x) && inside(z) ==> inside(y)
  }

  function CountOf<T(!new)>(xs: seq<T>, inside: T -> bool): (n: nat)
    ensures n <= |xs|
  {
    |Filter(xs, inside)|
  }

  lemma {:induction false} CountInsert<T(!new)>(x: T, xs: seq<T>, le: (T, T) -> bool, inside: T -> bool)
    ensures CountOf(Insert(x, xs, le), inside) == CountOf([x], inside) + CountOf(xs, inside)
  {
    if xs != [] && !le(x, xs[0]) {
      CountInsert(x, xs[1..], le, inside);
    } else {
      assert ([x] + xs)[1..] == xs;
    }
  }

  lemma {:induction false} CountSorted<T(!new)>(xs: seq<T>, le: (T, T) -> bool, inside: T -> bool)
    ensures CountOf(Sort(xs, le), inside) == CountOf(xs, inside)
  {
    if xs != [] {
      CountSorted(xs[1..], le, inside);
      CountInsert(xs[0], Sort(xs[1..], le), le, inside);
    }
  }

  lemma CountConcat<T(!new)>(xs: seq<T>, ys: seq<T>, inside: T -> bool)
    ensures CountOf(xs + ys, inside) == CountOf(xs, inside) + CountOf(ys, inside)
  {
    FilterAppend(xs, ys, inside);
  }

  lemma CountSome<T(!new)>(xs: seq<T>, inside: T -> bool) returns (i: nat)
    requires CountOf(xs, inside) > 0
    ensures i < |xs| && inside(xs[i])
  {
    var x := Filter(xs, inside)[0];
    assert x in Filter(xs, inside);
    i :| 0 <= i < |xs| && xs[i] == x;
  }

  lemma MemberUpTo<T(!new)>(s: seq<T>, inside: T -> bool, k: nat) returns (i: nat)
    requires k < |s| && CountOf(s, inside) >= |s| - k
    ensures i <= k && inside(s[i])
  {
    assert s == s[..k + 1] + s[k + 1..];
    CountConcat(s[..k + 1], s[k + 1..], inside);
    i := CountSome(s[..k + 1], inside);
  }

  lemma MemberFrom<T(!new)>(s: seq<T>, inside: T -> bool, k: nat) returns (i: nat)
    requires k < |s| && CountOf(s, inside) > k
    ensures k <= i < |s| && inside(s[i])
  {
    assert s == s[..k] + s[k..];
    CountConcat(s[..k], s[k..], inside);
    i := CountSome(s[k..], inside);
    i := k + i;
  }

  lemma Between3<T(!new)>(s: seq<T>, le: (T, T) -> bool, inside: T -> bool, i: nat, k: nat, j: nat)
    requires SortedBy(s, le) && Convex(le, inside) && i <= k <= j < |s| && inside(s[i]) && inside(s[j])
    ensures inside(s[k])
  {
    if i < k < j { assert le(s[i], s[k]) && le(s[k], s[j]); }
  }

  /** A position that a group of values outnumbers on both sides holds one of the group. */
  lemma MiddleInside<T(!new)>(xs: seq<T>, le: (T, T) -> bool, inside: T -> bool, k: nat)
    requires TotalPreorder(le) && Convex(le, inside) && k < |xs|
    requires CountOf(xs, inside) > k && CountOf(xs, inside) >= |xs| - k
    ensures inside(Sort(xs, le)[k])
  {
    hide TotalPreorder, Convex, CountOf, Sort, SortedBy;
    var s := Sort(xs, le);
    SortCorrect(xs, le);
    CountSorted(xs, le, inside);
    var below := MemberUpTo(s, inside, k);
    var above := MemberFrom(s, inside, k);
    Between3(s, le, inside, below, k, above);
  }

  /** More than half of the sample. */
  ghost predicate Majority<T(!new)>(xs: seq<T>, inside: T -> bool) {
    2 * CountOf(xs, inside) > |xs|
  }

  /** Both middle positions hold a member of the majority. */
  lemma MajorityHoldsMiddle<T(!new)>(xs: seq<T>, le: (T, T) -> bool, inside: T -> bool)
    requires TotalPreorder(le) && Convex(le, inside) && Majority(xs, inside)
    ensures |xs| > 0 && inside(Sort(xs, le)[|xs| / 2])
    ensures |xs| % 2 == 0 ==> inside(Sort(xs, le)[|xs| / 2 - 1])
  {
    hide TotalPreorder, Convex, CountOf, Sort;
    var mid := |xs| / 2;
    MiddleInside(xs, le, inside, mid);
    if |xs| % 2 == 0 {
      MiddleInside(xs, le, inside, mid - 1);
    }
  }
}
