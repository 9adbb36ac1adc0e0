/**
 * The array sort the program relies on everywhere: stable, by a comparator.
 * A stable sort has one possible result, so any stable algorithm models it.
 */
module Sorting {
  import opened Common

  ghost predicate TotalPreorder<T(!new)>(le: (T, T) -> bool) {
    && (forall x, y :: le(x, y) || le(y, x))
    && (forall x, y, z :: le(x, y) && le(y, z) ==> le(x, z))
  }

  ghost predicate Antisymmetric<T(!new)>(le: (T, T) -> bool) {
    forall x, y :: le(x, y) && le(y, x) ==> x == y
  }

  ghost predicate SortedBy<T>(xs: seq<T>, le: (T, T) -> bool) {
    forall i, j | 0 <= i < j < |xs| :: le(xs[i], xs[j])
  }

  function Insert<T>(x: T, xs: seq<T>, le: (T, T) -> bool): (r: seq<T>)
    ensures |r| == |xs| + 1
  {
    if xs == [] then [x]
    else if le(x, xs[0]) then [x] + xs
    else [xs[0]] + Insert(x, xs[1..], le)
  }

  function Sort<T>(xs: seq<T>, le: (T, T) -> bool): (r: seq<T>)
    ensures |r| == |xs|
  {
    if xs == [] then [] else Insert(xs[0], Sort(xs[1..], le), le)
  }

  lemma {:induction false} InsertContents<T>(x: T, xs: seq<T>, le: (T, T) -> bool)
    ensures multiset(Insert(x, xs, le)) == multiset(xs) + multiset{x}
  {
    if xs != [] && !le(x, xs[0]) {
      InsertContents(x, xs[1..], le);
      assert xs == [xs[0]] + xs[1..];
    }
  }

  lemma {:induction false} InsertSorted<T(!new)>(x: T, xs: seq<T>, le: (T, T) -> bool)
    requires TotalPreorder(le) && SortedBy(xs, le)
    ensures SortedBy(Insert(x, xs, le), le)
  {
    if xs != [] && !le(x, xs[0]) {
      var rest := Insert(x, xs[1..], le);
      InsertSorted(x, xs[1..], le);
      InsertContents(x, xs[1..], le);
      forall j | 0 <= j < |rest| ensures le(xs[0], rest[j]) {
        assert rest[j] in multiset(rest);
        if rest[j] != x {
          assert rest[j] in multiset(xs[1..]);
        }
      }
    } else if xs != [] {
      forall j | 0 <= j < |xs| ensures le(x, xs[j]) {
        assert j == 0 || le(xs[0], xs[j]);
      }
    }
  }

  /** Sorting keeps the contents and puts them in order. */
  lemma {:induction false} SortCorrect<T(!new)>(xs: seq<T>, le: (T, T) -> bool)
    requires TotalPreorder(le)
    ensures SortedBy(Sort(xs, le), le)
    ensures multiset(Sort(xs, le)) == multiset(xs)
  {
    if xs != [] {
      SortCorrect(xs[1..], le);
      InsertSorted(xs[0], Sort(xs[1..], le), le);
      InsertContents(xs[0], Sort(xs[1..], le), le);
      assert xs == [xs[0]] + xs[1..];
    }
  }

  /** Among these elements a tie is an identity. */
  ghost predicate TiesIdentical<T>(xs: seq<T>, le: (T, T) -> bool) {
    forall x, y | x in xs && y in xs && le(x, y) && le(y, x) :: x == y
  }

  /** Two sorted lists with the same contents start alike when ties are identities. */
  lemma SortedHead<T(!new)>(xs: seq<T>, ys: seq<T>, le: (T, T) -> bool)
    requires TiesIdentical(xs, le) && xs != [] && ys != []
    requires SortedBy(xs, le) && SortedBy(ys, le) && multiset(xs) == multiset(ys)
    ensures xs[0] == ys[0]
  {
    assert xs[0] in multiset(ys) && ys[0] in multiset(xs);
    var i :| 0 <= i < |ys| && ys[i] == xs[0];
    var j :| 0 <= j < |xs| && xs[j] == ys[0];
    if i != 0 && j != 0 {
      assert le(ys[0], ys[i]) && le(xs[0], xs[j]);
      assert ys[0] in xs && xs[0] in xs;
    }
  }

  lemma {:induction false} TailContents<T>(xs: seq<T>)
    requires xs != []
    ensures multiset(xs[1..]) == multiset(xs) - multiset{xs[0]}
  {
    assert xs == [xs[0]] + xs[1..];
  }

  /** Sorted lists with the same contents are equal when ties are identities. */
  lemma {:induction false} SortedUnique<T(!new)>(xs: seq<T>, ys: seq<T>, le: (T, T) -> bool)
    requires TiesIdentical(xs, le)
    requires SortedBy(xs, le) && SortedBy(ys, le) && multiset(xs) == multiset(ys)
    ensures xs == ys
  {
    assert |xs| == |multiset(xs)| == |multiset(ys)| == |ys|;
    if xs != [] {
      SortedHead(xs, ys, le);
      TailContents(xs);
      TailContents(ys);
      assert forall x | x in xs[1..] :: x in xs;
      SortedUnique(xs[1..], ys[1..], le);
      assert xs == [xs[0]] + xs[1..] && ys == [ys[0]] + ys[1..];
    }
  }

  /** The sorted form depends on the contents only, not on the original order. */
  lemma SortPermutation<T(!new)>(xs: seq<T>, ys: seq<T>, le: (T, T) -> bool)
    requires TotalPreorder(le) && TiesIdentical(xs, le) && multiset(xs) == multiset(ys)
    ensures Sort(xs, le) == Sort(ys, le)
  {
    SortCorrect(xs, le);
    SortCorrect(ys, le);
    SortMembers(xs, le);
    SortedUnique(Sort(xs, le), Sort(ys, le), le);
  }

  lemma SortMembers<T(!new)>(xs: seq<T>, le: (T, T) -> bool)
    requires TotalPreorder(le)
    ensures forall x :: x in Sort(xs, le) <==> x in xs
  {
    SortCorrect(xs, le);
    forall x ensures x in Sort(xs, le) <==> x in xs {
      assert x in Sort(xs, le) <==> x in multiset(Sort(xs, le));
      assert x in xs <==> x in multiset(xs);
    }
  }

  /** Sorting a list without repetitions leaves it without repetitions. */
  lemma DistinctSorted<T(!new)>(xs: seq<T>, le: (T, T) -> bool)
    requires TotalPreorder(le) && NoDuplicates(xs)
    ensures NoDuplicates(Sort(xs, le))
  {
    SortCorrect(xs, le);
    DistinctCounts(xs);
    CountsDistinct(Sort(xs, le));
  }

  /** Lists without repetitions that hold the same elements are rearrangements of each other. */
  lemma SameMembersSameContents<T(!new)>(xs: seq<T>, ys: seq<T>)
    requires NoDuplicates(xs) && NoDuplicates(ys) && forall x :: x in xs <==> x in ys
    ensures multiset(xs) == multiset(ys)
  {
    DistinctCounts(xs);
    DistinctCounts(ys);
    forall x ensures multiset(xs)[x] == multiset(ys)[x] {
      assert x in xs <==> x in multiset(xs);
      assert x in ys <==> x in multiset(ys);
    }
  }

  lemma {:induction false} DistinctCounts<T>(xs: seq<T>)
    requires NoDuplicates(xs)
    ensures forall x :: multiset(xs)[x] <= 1
  {
    if xs != [] {
      DistinctCounts(xs[1..]);
      assert xs == [xs[0]] + xs[1..];
      assert xs[0] !in xs[1..];
    }
  }

  lemma CountsDistinct<T>(xs: seq<T>)
    requires forall x :: multiset(xs)[x] <= 1
    ensures NoDuplicates(xs)
  {
    forall i, j | 0 <= i < j < |xs| ensures xs[i] != xs[j] {
      assert xs == xs[..j] + [xs[j]] + xs[j + 1..];
      var before := xs[..j];
      assert before[i] == xs[i];
      assert multiset(xs)[xs[j]] == multiset(before)[xs[j]] + 1 + multiset(xs[j + 1..])[xs[j]];
      assert multiset(before)[xs[i]] >= 1;
    }
  }

  /** Comparison item by item, by a code for each item; a proper prefix comes first. */
  predicate LexLe<T>(a: seq<T>, b: seq<T>, code: T -> int) {
    if a == [] then true
    else if b == [] then false
    else if code(a[0]) != code(b[0]) then code(a[0]) < code(b[0])
    else LexLe(a[1..], b[1..], code)
  }

  lemma {:induction false} LexLeTotal<T>(a: seq<T>, b: seq<T>, code: T -> int)
    ensures LexLe(a, b, code) || LexLe(b, a, code)
  {
    if a != [] && b != [] && code(a[0]) == code(b[0]) { LexLeTotal(a[1..], b[1..], code); }
  }

  lemma {:induction false} LexLeTransitive<T>(a: seq<T>, b: seq<T>, c: seq<T>, code: T -> int)
    requires LexLe(a, b, code) && LexLe(b, c, code)
    ensures LexLe(a, c, code)
  {
    if a != [] && b != [] && c != [] && code(a[0]) == code(b[0]) && code(b[0]) == code(c[0]) {
      LexLeTransitive(a[1..], b[1..], c[1..], code);
    }
  }

  lemma {:induction false} LexLeAntisymmetric<T(!new)>(a: seq<T>, b: seq<T>, code: T -> int)
    requires forall x, y :: code(x) == code(y) ==> x == y
    requires LexLe(a, b, code) && LexLe(b, a, code)
    ensures a == b
  {
    if a != [] && b != [] {
      LexLeAntisymmetric(a[1..], b[1..], code);
      assert a == [a[0]] + a[1..] && b == [b[0]] + b[1..];
    }
  }

  function CharCode(c: char): int { c as int }

  /** Comparison of strings by code, the order `Array.prototype.sort` uses. */
  predicate StringLe(a: string, b: string) { LexLe(a, b, CharCode) }

  lemma StringOrder()
    ensures TotalPreorder(StringLe) && Antisymmetric(StringLe)
  {
    forall a, b ensures StringLe(a, b) || StringLe(b, a) { LexLeTotal(a, b, CharCode); }
    forall a, b, c | StringLe(a, b) && StringLe(b, c) ensures StringLe(a, c) { LexLeTransitive(a, b, c, CharCode); }
    forall a, b | StringLe(a, b) && StringLe(b, a) ensures a == b { LexLeAntisymmetric(a, b, CharCode); }
  }
}
