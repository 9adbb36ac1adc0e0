/** Longest common subsequence with two rolling rows, and the behaviour similarity built on it. */
module Lcs {
  import opened Common

  /** Strictly increasing positions of `a` that spell `c`. */
  ghost predicate Embeds<T>(at: seq<nat>, c: seq<T>, a: seq<T>) {
    && |at| == |c|
    && (forall i | 0 <= i < |at| :: at[i] < |a| && a[at[i]] == c[i])
    && (forall i, j | 0 <= i < j < |at| :: at[i] < at[j])
  }

  ghost predicate Subsequence<T>(c: seq<T>, a: seq<T>) {
    exists at :: Embeds(at, c, a)
  }

  ghost predicate IsLongestCommon<T(!new)>(n: nat, a: seq<T>, b: seq<T>) {
    && (exists c :: |c| == n && Subsequence(c, a) && Subsequence(c, b))
    && (forall c | Subsequence(c, a) && Subsequence(c, b) :: |c| <= n)
  }

  /** The table entry for the first `i` items of `a` and the first `j` of `b`. */
  function Cell<T(==)>(a: seq<T>, b: seq<T>, i: nat, j: nat): (n: nat)
    requires i <= |a| && j <= |b|
    ensures n <= i && n <= j
  {
    if i == 0 || j == 0 then 0
    else if a[i - 1] == b[j - 1] then Cell(a, b, i - 1, j - 1) + 1
    else Max(Cell(a, b, i - 1, j), Cell(a, b, i, j - 1))
  }

  lemma {:induction false} CellAttained<T>(a: seq<T>, b: seq<T>, i: nat, j: nat)
    returns (c: seq<T>, f: seq<nat>, g: seq<nat>)
    requires i <= |a| && j <= |b|
    ensures |c| == Cell(a, b, i, j) && Embeds(f, c, a[..i]) && Embeds(g, c, b[..j])
  {
    if i == 0 || j == 0 {
      c, f, g := [], [], [];
    } else if a[i - 1] == b[j - 1] {
      c, f, g := CellAttained(a, b, i - 1, j - 1);
      c, f, g := c + [a[i - 1]], f + [i - 1], g + [j - 1];
    } else if Cell(a, b, i - 1, j) >= Cell(a, b, i, j - 1) {
      c, f, g := CellAttained(a, b, i - 1, j);
    } else {
      c, f, g := CellAttained(a, b, i, j - 1);
    }
  }

  lemma {:induction false} CellBounds<T>(a: seq<T>, b: seq<T>, i: nat, j: nat, c: seq<T>, f: seq<nat>, g: seq<nat>)
    requires i <= |a| && j <= |b| && Embeds(f, c, a[..i]) && Embeds(g, c, b[..j])
    ensures |c| <= Cell(a, b, i, j)
    decreases i + j
  {
    if c != [] {
      var k := |c| - 1;
      assert f[k] < i && g[k] < j;
      if a[i - 1] == b[j - 1] {
        CellBounds(a, b, i - 1, j - 1, c[..k], f[..k], g[..k]);
      } else if f[k] < i - 1 {
        CellBounds(a, b, i - 1, j, c, f, g);
      } else {
        assert g[k] < j - 1 by {
          assert a[f[k]] == c[k] == b[g[k]];
        }
        CellBounds(a, b, i, j - 1, c, f, g);
      }
    }
  }

  lemma WholeAttained<T>(a: seq<T>, b: seq<T>) returns (c: seq<T>)
    ensures |c| == Cell(a, b, |a|, |b|) && Subsequence(c, a) && Subsequence(c, b)
  {
    hide Cell;
    var f, g;
    c, f, g := CellAttained(a, b, |a|, |b|);
    assert a[..|a|] == a && b[..|b|] == b;
    assert Embeds(f, c, a) && Embeds(g, c, b);
  }

  lemma WholeBounds<T>(a: seq<T>, b: seq<T>, c: seq<T>)
    requires Subsequence(c, a) && Subsequence(c, b)
    ensures |c| <= Cell(a, b, |a|, |b|)
  {
    hide Cell;
    var f :| Embeds(f, c, a);
    var g :| Embeds(g, c, b);
    assert a[..|a|] == a && b[..|b|] == b;
    CellBounds(a, b, |a|, |b|, c, f, g);
  }

  /** The last table entry is the greatest length of a common subsequence. */
  lemma CellIsLongest<T(!new)>(a: seq<T>, b: seq<T>)
    ensures IsLongestCommon(Cell(a, b, |a|, |b|), a, b)
  {
    hide Cell, Subsequence;
    var c := WholeAttained(a, b);
    forall d | Subsequence(d, a) && Subsequence(d, b) ensures |d| <= Cell(a, b, |a|, |b|) {
      WholeBounds(a, b, d);
    }
  }

  /** There is one longest length, and the order of the two lists does not matter to it. */
  lemma LongestUnique<T(!new)>(m: nat, n: nat, a: seq<T>, b: seq<T>)
    requires IsLongestCommon(m, a, b) && (IsLongestCommon(n, a, b) || IsLongestCommon(n, b, a))
    ensures m == n
  {
  }

  function Length<T(==)>(a: seq<T>, b: seq<T>): (n: nat)
    ensures n <= |a| && n <= |b|
  {
    Cell(a, b, |a|, |b|)
  }

  lemma LengthSymmetric<T(!new)>(a: seq<T>, b: seq<T>)
    ensures Length(a, b) == Length(b, a)
  {
    CellIsLongest(a, b);
    CellIsLongest(b, a);
    LongestUnique(Length(a, b), Length(b, a), a, b);
  }

  /** A list is a subsequence of a no longer one only if they are equal. */
  lemma {:induction false} FullSubsequence<T>(c: seq<T>, a: seq<T>, at: seq<nat>, k: nat)
    requires Embeds(at, c, a) && k <= |c|
    ensures forall i | 0 <= i < k :: at[i] >= i
  {
    if k > 0 {
      FullSubsequence(c, a, at, k - 1);
      if k > 1 { assert at[k - 2] < at[k - 1]; }
    }
  }

  /** The length reaches that of the longer list exactly when the lists are equal. */
  lemma LengthFull<T(!new)>(a: seq<T>, b: seq<T>)
    ensures Length(a, b) == Max(|a|, |b|) <==> a == b
  {
    CellIsLongest(a, b);
    if a == b {
      var at := seq(|a|, i => i);
      assert Embeds(at, a, a);
      assert Subsequence(a, a) && Subsequence(a, b);
    }
    if Length(a, b) == Max(|a|, |b|) {
      var c :| |c| == Length(a, b) && Subsequence(c, a) && Subsequence(c, b);
      SameLengthSubsequence(c, a);
      SameLengthSubsequence(c, b);
    }
  }

  lemma SameLengthSubsequence<T>(c: seq<T>, a: seq<T>)
    requires Subsequence(c, a) && |c| >= |a|
    ensures c == a
  {
    var at :| Embeds(at, c, a);
    FullSubsequence(c, a, at, |c|);
    if c != [] {
      assert |c| - 1 <= at[|c| - 1] < |a|;
    }
    EmbeddingIsIdentity(c, a, at, |c|);
  }

  lemma {:induction false} EmbeddingIsIdentity<T>(c: seq<T>, a: seq<T>, at: seq<nat>, k: nat)
    requires Embeds(at, c, a) && |c| == |a| && k <= |c|
    requires forall i | 0 <= i < |c| :: at[i] >= i
    ensures forall i | |c| - k <= i < |c| :: at[i] == i
  {
    if k > 0 {
      EmbeddingIsIdentity(c, a, at, k - 1);
      var i := |c| - k;
      if k > 1 { assert at[i] < at[i + 1]; }
    }
  }

  /** `row` is row `i` of the table. */
  ghost predicate HoldsRow(row: array<nat>, long: seq<string>, short: seq<string>, i: nat)
    requires i <= |long|
    reads row
  {
    row.Length == |short| + 1 && forall k | 0 <= k <= |short| :: row[k] == Cell(long, short, i, k)
  }

  /** Two rows, swapped after each item of the longer list; the older row is cleared for reuse. */
  method LcsLength(a: seq<string>, b: seq<string>) returns (n: nat)
    ensures IsLongestCommon(n, a, b)
    ensures n == Length(a, b) == Length(b, a)
  {
    hide IsLongestCommon, Cell;
    LengthSymmetric(a, b);
    CellIsLongest(a, b);
    if |a| == 0 || |b| == 0 { return 0; }
    var short, long := if |a| <= |b| then a else b, if |a| <= |b| then b else a;
    var prev := new nat[|short| + 1](_ => 0);
    var cur := new nat[|short| + 1](_ => 0);
    FirstRow(long, short);
    for i := 1 to |long| + 1
      invariant prev != cur && fresh(prev) && fresh(cur)
      invariant HoldsRow(prev, long, short, i - 1)
      invariant cur.Length == |short| + 1 && cur[0] == 0
    {
      FillRow(long, short, i, prev, cur);
      prev, cur := cur, prev;
      Clear(cur);
    }
    n := prev[|short|];
  }

  lemma FirstRow(long: seq<string>, short: seq<string>)
    ensures forall k | 0 <= k <= |short| :: Cell(long, short, 0, k) == 0
  {
  }

  method FillRow(long: seq<string>, short: seq<string>, i: nat, prev: array<nat>, cur: array<nat>)
    requires 1 <= i <= |long| && prev != cur
    requires HoldsRow(prev, long, short, i - 1)
    requires cur.Length == |short| + 1 && cur[0] == 0
    modifies cur
    ensures HoldsRow(cur, long, short, i)
  {
    for j := 1 to |short| + 1
      invariant forall k | 0 <= k < j :: cur[k] == Cell(long, short, i, k)
    {
      cur[j] := if long[i - 1] == short[j - 1] then prev[j - 1] + 1 else Max(prev[j], cur[j - 1]);
    }
  }

  method Clear(row: array<nat>)
    modifies row
    ensures forall k | 0 <= k < row.Length :: row[k] == 0
  {
    for k := 0 to row.Length
      invariant forall l | 0 <= l < k :: row[l] == 0
    {
      row[k] := 0;
    }
  }
}
