/** The disjoint-set forest: path compression and union by size. */
module UnionFind {
  import opened Common
  import opened Connectivity
  import opened Sorting

  function Pow2(n: nat): (r: nat)
    ensures r > n
  {
    if n == 0 then 1 else 2 * Pow2(n - 1)
  }

  lemma {:induction false} Pow2Monotone(m: nat, n: nat)
    requires m <= n
    ensures Pow2(m) <= Pow2(n)
  {
    if m < n { Pow2Monotone(m, n - 1); }
  }

  /**
   * A forest together with what it stands for: `root` names the representative of
   * every node, `rank` bounds heights, and `links` are the pairs united so far.
   */
  datatype Tree = Tree(parent: map<string, string>, size: map<string, nat>,
                       root: map<string, string>, rank: map<string, nat>, links: set<(string, string)>)

  /** The maps speak about the same nodes. */
  ghost predicate Aligned(t: Tree) {
    t.size.Keys == t.parent.Keys && t.root.Keys == t.parent.Keys && t.rank.Keys == t.parent.Keys
  }

  /**
   * What the forest keeps at every node: the parent is in the same class, the
   * representative is its own parent, and `rank` grows strictly along the link.
   */
  ghost predicate NodeOk(t: Tree, x: string)
    requires Aligned(t) && x in t.parent
  {
    && t.parent[x] in t.parent && t.root[x] in t.parent
    && t.parent[t.root[x]] == t.root[x] && t.root[t.parent[x]] == t.root[x] && t.root[t.root[x]] == t.root[x]
    && t.rank[x] <= t.rank[t.root[x]]
    && (t.parent[x] == x ==> t.root[x] == x)
    && (t.parent[x] != x ==> t.rank[x] < t.rank[t.parent[x]])
  }

  /** No chain of parents can loop, and each ends at its representative. */
  ghost predicate Forest(t: Tree) {
    Aligned(t) && forall x {:trigger NodeOk(t, x)} | x in t.parent :: NodeOk(t, x)
  }

  ghost function Members(root: map<string, string>, r: string): set<string> {
    set x | x in root && root[x] == r
  }

  ghost predicate WeightOk(t: Tree, r: string)
    requires Aligned(t) && r in t.parent
  {
    t.parent[r] == r ==> t.size[r] == |Members(t.root, r)| && Pow2(t.rank[r]) <= t.size[r]
  }

  /** Stored sizes are component sizes, and they dominate the exponential of the rank. */
  ghost predicate Weighted(t: Tree) {
    Aligned(t) && forall r {:trigger WeightOk(t, r)} | r in t.parent :: WeightOk(t, r)
  }

  ghost predicate Sound(t: Tree) {
    Forest(t) && Weighted(t) && Refines(t.root, t.links)
  }

  /** Number of parent links from a node up to its representative. */
  ghost function Depth(t: Tree, x: string): nat
    requires Forest(t) && x in t.parent
    decreases (assert NodeOk(t, x); t.rank[t.root[x]] - t.rank[x])
  {
    assert NodeOk(t, x) && NodeOk(t, t.parent[x]);
    if t.parent[x] == x then 0 else 1 + Depth(t, t.parent[x])
  }

  lemma {:induction false} DepthBelowRank(t: Tree, x: string)
    requires Forest(t) && x in t.parent
    ensures t.root[x] in t.rank && Depth(t, x) + t.rank[x] <= t.rank[t.root[x]]
    decreases (assert NodeOk(t, x); t.rank[t.root[x]] - t.rank[x])
  {
    assert NodeOk(t, x) && NodeOk(t, t.parent[x]);
    if t.parent[x] != x { DepthBelowRank(t, t.parent[x]); }
  }

  /** A walk to the representative is at most logarithmic in the component's size. */
  lemma DepthLogarithmic(t: Tree, x: string)
    requires Sound(t) && x in t.parent
    ensures t.root[x] in t.size && t.size[t.root[x]] == |Members(t.root, t.root[x])|
    ensures Pow2(Depth(t, x)) <= t.size[t.root[x]]
  {
    hide Refines, Members;
    assert NodeOk(t, x) && WeightOk(t, t.root[x]);
    DepthBelowRank(t, x);
    Pow2Monotone(Depth(t, x), t.rank[t.root[x]]);
  }

  lemma RootKnown(t: Tree, x: string)
    requires Sound(t) && x in t.parent
    ensures Aligned(t) && NodeOk(t, x) && NodeOk(t, t.parent[x]) && NodeOk(t, t.root[x])
  {
    hide Refines, Weighted;
    assert NodeOk(t, x);
  }

  ghost function Added(t: Tree, x: string): Tree {
    Tree(t.parent[x := x], t.size[x := 1], t.root[x := x], t.rank[x := 0], t.links)
  }

  lemma AddSound(t: Tree, x: string)
    requires Sound(t) && x !in t.parent
    ensures Sound(Added(t, x))
  {
    forall y | y in t.root ensures t.root[y] in t.root { RootKnown(t, y); }
    WithNodeRefines(t.root, t.links, x);
    AddForest(t, x);
    AddWeighted(t, x);
    hide Forest, Weighted, Refines;
  }

  lemma AddForest(t: Tree, x: string)
    requires Forest(t) && x !in t.parent
    ensures Forest(Added(t, x))
  {
    var u := Added(t, x);
    forall y | y in u.parent ensures NodeOk(u, y) {
      if y != x { assert NodeOk(t, y) && NodeOk(t, t.root[y]); }
    }
  }

  lemma AddWeighted(t: Tree, x: string)
    requires Forest(t) && Weighted(t) && x !in t.parent
    ensures Weighted(Added(t, x))
  {
    var u := Added(t, x);
    forall r | r in u.parent ensures WeightOk(u, r) {
      if r != x {
        assert WeightOk(t, r) && Members(u.root, r) == Members(t.root, r);
      } else {
        forall y | y in t.parent ensures t.root[y] != x { assert NodeOk(t, y); }
        assert Members(u.root, x) == {x};
      }
    }
  }

  ghost function Hung(t: Tree, x: string): Tree
    requires x in t.root
  {
    t.(parent := t.parent[x := t.root[x]])
  }

  /** Path compression: a node re-hung on its own representative. */
  lemma CompressSound(t: Tree, x: string)
    requires Sound(t) && x in t.parent
    ensures x in t.root && Sound(Hung(t, x))
  {
    CompressForest(t, x);
    CompressWeighted(t, x);
    hide Forest, Weighted, Refines;
  }

  lemma CompressForest(t: Tree, x: string)
    requires Forest(t) && x in t.parent
    ensures Forest(Hung(t, x))
  {
    var u := Hung(t, x);
    assert NodeOk(t, x) && NodeOk(t, t.parent[x]);
    forall y | y in u.parent ensures NodeOk(u, y) {
      assert NodeOk(t, y) && NodeOk(t, t.root[y]);
    }
  }

  lemma CompressWeighted(t: Tree, x: string)
    requires Forest(t) && Weighted(t) && x in t.parent
    ensures Weighted(Hung(t, x))
  {
    var u := Hung(t, x);
    hide Members;
    assert NodeOk(t, x);
    forall y | y in u.parent ensures WeightOk(u, y) {
      assert WeightOk(t, y);
    }
  }

  ghost predicate Has(t: Tree, x: string) {
    x in t.parent && x in t.size && x in t.root && x in t.rank
  }

  lemma RefinedForest(t: Tree)
    requires Sound(t)
    ensures Refines(t.root, t.links)
  {
  }

  /** Where following parent links from a node ends. */
  ghost function Climb(t: Tree, x: string): string
    requires Forest(t) && x in t.parent
    decreases (assert NodeOk(t, x); t.rank[t.root[x]] - t.rank[x])
  {
    assert NodeOk(t, x) && NodeOk(t, t.parent[x]);
    if t.parent[x] == x then x else Climb(t, t.parent[x])
  }

  lemma {:induction false} ClimbEnds(t: Tree, x: string)
    requires Forest(t) && x in t.parent
    ensures x in t.root && Climb(t, x) == t.root[x]
    decreases (assert NodeOk(t, x); t.rank[t.root[x]] - t.rank[x])
  {
    assert NodeOk(t, x) && NodeOk(t, t.parent[x]);
    if t.parent[x] != x { ClimbEnds(t, t.parent[x]); }
  }

  /** Climbing the stored parent links from two nodes meets exactly when a path of united pairs joins them. */
  lemma ClimbsMeet(t: Tree, a: string, b: string)
    requires Sound(t) && a in t.parent && b in t.parent
    ensures Climb(t, a) == Climb(t, b) <==> Connected(t.links, a, b)
  {
    ClimbEnds(t, a);
    ClimbEnds(t, b);
  }

  lemma SameNodes(t: Tree)
    requires Sound(t)
    ensures t.root.Keys == t.parent.Keys
  {
  }

  /** One parent link, seen from the node. */
  lemma RootStep(t: Tree, x: string)
    requires Sound(t) && x in t.parent
    ensures Has(t, x) && Has(t, t.parent[x]) && Has(t, t.root[x])
    ensures t.root[t.parent[x]] == t.root[x] && t.rank[x] <= t.rank[t.root[x]]
    ensures if t.parent[x] == x then t.root[x] == x else t.rank[x] < t.rank[t.parent[x]]
    ensures t.rank[t.parent[x]] <= t.rank[t.root[x]]
  {
    RootKnown(t, x);
  }

  ghost function United(t: Tree, big: string, small: string, a: string, b: string): Tree
    requires Has(t, big) && Has(t, small)
  {
    Tree(t.parent[small := big], t.size[big := t.size[big] + t.size[small]], Merge(t.root, big, small, big),
         t.rank[big := Max(t.rank[big], t.rank[small] + 1)], t.links + {(a, b)})
  }

  /** Both classes of `a` and `b` under the representative of the larger; of two equal ones, under that of `a`. */
  ghost function Joined(root: map<string, string>, a: string, b: string): map<string, string>
    requires a in root && b in root
  {
    var ra, rb := root[a], root[b];
    Merge(root, a, b, if |Members(root, ra)| >= |Members(root, rb)| then ra else rb)
  }

  /** The stored size of a representative is the size of its class. */
  lemma SizeOfClass(t: Tree, x: string)
    requires Sound(t) && x in t.parent
    ensures x in t.root && t.root[x] in t.size && t.size[t.root[x]] == |Members(t.root, t.root[x])|
  {
    RootKnown(t, x);
    assert WeightOk(t, t.root[x]);
  }

  lemma JoinedSame(root: map<string, string>, a: string, b: string)
    requires a in root && b in root && root[a] == root[b]
    ensures Joined(root, a, b) == root
  {
  }

  /** Uniting representatives relabels as uniting their members does. */
  lemma JoinedUnites(t: Tree, a: string, b: string, big: string, small: string)
    requires Sound(t) && a in t.parent && b in t.parent && a in t.root && b in t.root
    requires Has(t, t.root[a]) && Has(t, t.root[b])
    requires
      var ra, rb := t.root[a], t.root[b];
      big == (if t.size[ra] >= t.size[rb] then ra else rb) && small == (if t.size[ra] >= t.size[rb] then rb else ra)
    ensures United(t, big, small, a, b).root == Joined(t.root, a, b)
  {
    hide Members;
    SizeOfClass(t, a);
    SizeOfClass(t, b);
    RootKnown(t, a);
    RootKnown(t, b);
  }

  /** The root of the smaller component hung below the root of the larger. */
  lemma UniteSound(t: Tree, a: string, b: string, big: string, small: string)
    requires Sound(t) && a in t.parent && b in t.parent && a in t.root && b in t.root
    requires Has(t, big) && Has(t, small) && big != small && t.size[big] >= t.size[small]
    requires (big == t.root[a] && small == t.root[b]) || (big == t.root[b] && small == t.root[a])
    ensures Sound(United(t, big, small, a, b))
  {
    RootKnown(t, a);
    RootKnown(t, b);
    MergeRefines(t.root, t.links, a, b, big);
    assert Merge(t.root, a, b, big) == Merge(t.root, big, small, big);
    UniteForest(t, a, b, big, small);
    UniteWeighted(t, a, b, big, small);
    hide Forest, Weighted, Refines;
  }

  lemma UnitedNodes(t: Tree, a: string, b: string, big: string, small: string)
    requires Has(t, big) && Has(t, small)
    ensures var u := United(t, big, small, a, b);
            u.parent.Keys == t.parent.Keys && u.parent == t.parent[small := big]
            && u.root.Keys == t.root.Keys && u.size == t.size[big := t.size[big] + t.size[small]]
            && u.links == t.links + {(a, b)}
  {
  }

  lemma UniteForest(t: Tree, a: string, b: string, big: string, small: string)
    requires Forest(t) && Has(t, big) && Has(t, small)
    requires big != small && t.root[big] == big && t.root[small] == small
    ensures Forest(United(t, big, small, a, b))
  {
    var u := United(t, big, small, a, b);
    forall x | x in u.parent ensures NodeOk(u, x) {
      assert NodeOk(t, x) && NodeOk(t, t.parent[x]) && NodeOk(t, t.root[x]) && NodeOk(t, big) && NodeOk(t, small);
    }
  }

  lemma UniteWeighted(t: Tree, a: string, b: string, big: string, small: string)
    requires Forest(t) && Weighted(t) && Has(t, big) && Has(t, small)
    requires big != small && t.root[big] == big && t.root[small] == small && t.size[big] >= t.size[small]
    ensures Weighted(United(t, big, small, a, b))
  {
    var u := United(t, big, small, a, b);
    MergeSizes(t.root, big, small);
    hide Merge, Members, Forest;
    forall r | r in u.parent ensures WeightOk(u, r) {
      assert WeightOk(t, r) && WeightOk(t, big) && WeightOk(t, small);
      assert NodeOk(t, big) && NodeOk(t, small);
    }
  }

  /** Linking the smaller root below the larger adds the two member sets. */
  lemma MergeSizes(root: map<string, string>, big: string, small: string)
    requires big in root && small in root && root[big] == big && root[small] == small && big != small
    ensures |Members(Merge(root, big, small, big), big)| == |Members(root, big)| + |Members(root, small)|
    ensures forall r | r != big && r != small :: Members(Merge(root, big, small, big), r) == Members(root, r)
    ensures Members(Merge(root, big, small, big), small) == {}
  {
    var merged := Merge(root, big, small, big);
    assert Members(merged, big) == Members(root, big) + Members(root, small);
    assert Members(root, big) !! Members(root, small);
  }

  lemma SameClassRefines(root: map<string, string>, links: set<(string, string)>, a: string, b: string)
    requires Refines(root, links) && a in root && b in root && root[a] == root[b]
    ensures Refines(root, links + {(a, b)})
  {
    MergeRefines(root, links, a, b, root[a]);
    hide Refines;
    assert Merge(root, a, b, root[a]) == root;
  }

  lemma LinksIrrelevant(t: Tree, more: set<(string, string)>)
    requires Forest(t) && Weighted(t)
    ensures Forest(t.(links := more)) && Weighted(t.(links := more))
  {
    var u := t.(links := more);
    hide Members;
    forall x | x in u.parent ensures NodeOk(u, x) { assert NodeOk(t, x); }
    forall x | x in u.parent ensures WeightOk(u, x) { assert WeightOk(t, x); }
  }

  /** Uniting two nodes already in one class records a link and changes nothing else. */
  lemma SameClassSound(t: Tree, a: string, b: string)
    requires Sound(t) && a in t.parent && b in t.parent && a in t.root && b in t.root && t.root[a] == t.root[b]
    ensures Sound(t.(links := t.links + {(a, b)}))
  {
    SameClassRefines(t.root, t.links, a, b);
    LinksIrrelevant(t, t.links + {(a, b)});
    hide Forest, Weighted, Refines;
  }

  function Having(xs: seq<string>, root: map<string, string>, r: string): seq<string> {
    if xs == [] then []
    else if xs[0] in root && root[xs[0]] == r then [xs[0]] + Having(xs[1..], root, r)
    else Having(xs[1..], root, r)
  }

  lemma {:induction false} HavingMembers(xs: seq<string>, root: map<string, string>, r: string)
    ensures forall x :: x in Having(xs, root, r) <==> x in xs && x in root && root[x] == r
    ensures NoDuplicates(xs) ==> NoDuplicates(Having(xs, root, r))
  {
    if xs != [] {
      HavingMembers(xs[1..], root, r);
      if NoDuplicates(xs) {
        assert NoDuplicates(xs[1..]);
        forall y | y in xs[1..] ensures y != xs[0] {
          var k :| 0 <= k < |xs| - 1 && xs[1..][k] == y;
          assert xs[0] != xs[k + 1];
        }
      }
    }
  }

  lemma {:induction false} HavingEmpty(xs: seq<string>, root: map<string, string>, r: string)
    requires forall x | x in xs && x in root :: root[x] != r
    ensures Having(xs, root, r) == []
  {
    if xs != [] { HavingEmpty(xs[1..], root, r); }
  }

  lemma {:induction false} HavingStep(xs: seq<string>, root: map<string, string>, r: string, x: string)
    ensures Having(xs + [x], root, r)
         == Having(xs, root, r) + (if x in root && root[x] == r then [x] else [])
  {
    if xs == [] {
      assert [] + [x] == [x];
    } else {
      assert (xs + [x])[1..] == xs[1..] + [x];
      HavingStep(xs[1..], root, r, x);
    }
  }

  /** Larger lists first; equal lengths by their first member. */
  predicate GroupLe(a: seq<string>, b: seq<string>) {
    |a| > |b| || (|a| == |b| && (a == [] || StringLe(a[0], b[0])))
  }

  lemma GroupOrder()
    ensures TotalPreorder(GroupLe)
  {
    StringOrder();
  }

  /** `groups` lists every class of `root` exactly once, each sorted, in the published order. */
  ghost predicate Partition(groups: seq<seq<string>>, root: map<string, string>) {
    && SortedBy(groups, GroupLe)
    && (forall g | g in groups :: IsClass(g, root))
    && (forall x | x in root :: exists g :: g in groups && x in g)
    && (forall i, j | 0 <= i < j < |groups| :: groups[i] != groups[j])
  }

  ghost predicate IsClass(g: seq<string>, root: map<string, string>) {
    && g != [] && SortedBy(g, StringLe) && NoDuplicates(g) && g[0] in root
    && forall x :: x in g <==> x in root && root[x] == root[g[0]]
  }

  ghost predicate Lists(order: seq<string>, nodes: set<string>) {
    NoDuplicates(order) && forall x :: x in order <==> x in nodes
  }

  lemma ListsMember(order: seq<string>, nodes: set<string>, x: string)
    requires Lists(order, nodes) && x in order
    ensures x in nodes
  {
  }

  lemma PartitionClass(groups: seq<seq<string>>, root: map<string, string>, k: nat)
    requires Partition(groups, root) && k < |groups|
    ensures IsClass(groups[k], root)
  {
  }

  class UnionFind {
    var parent: map<string, string>
    var size: map<string, nat>
    /** The keys of `parent` in insertion order, which is how the program iterates them. */
    var order: seq<string>

    /** The forest as a value: what `parent` and `size` stand for. */
    ghost var tree: Tree

    ghost predicate Valid()
      reads this
    {
      tree.parent == parent && tree.size == size && Sound(tree) && Lists(order, parent.Keys)
    }

    constructor ()
      ensures Valid() && tree == Tree(map[], map[], map[], map[], {})
    {
      parent, size, order := map[], map[], [];
      tree := Tree(map[], map[], map[], map[], {});
    }

    method Add(x: string)
      requires Valid()
      modifies this
      ensures Valid() && x in parent
      ensures order == if x in old(parent) then old(order) else old(order) + [x]
      ensures tree == if x in old(parent) then old(tree) else Added(old(tree), x)
    {
      if x !in parent {
        AddSound(tree, x);
        hide Sound;
        parent, size, order := parent[x := x], size[x := 1], order + [x];
        tree := Added(tree, x);
      }
    }

    /** The representative of a node. Compression shortens chains and changes no representative. */
    method Find(x: string) returns (found: string)
      requires Valid()
      modifies this
      ensures Valid() && tree.links == old(tree.links) && tree.root == WithNode(old(tree.root), x)
      ensures order == if x in old(parent) then old(order) else old(order) + [x]
      ensures x in tree.root && found == tree.root[x]
    {
      SameNodes(tree);
      hide Sound, Lists, NodeOk;
      Add(x);
      ghost var before := tree;
      ghost var known := order;
      RootStep(tree, x);
      found := x;
      while parent[found] != found
        invariant parent == before.parent && size == before.size && tree == before && order == known
        invariant x in before.root && x in before.rank && before.root[x] in before.rank
        invariant found in parent && found in before.root && before.root[found] == before.root[x]
        invariant found in before.rank && before.rank[found] <= before.rank[before.root[x]]
        invariant parent[found] == found ==> before.root[found] == found
        decreases before.rank[before.root[x]] - before.rank[found]
      {
        RootStep(before, found);
        found := parent[found];
        RootStep(before, found);
      }
      Compress(x, found);
    }

    /** Re-hangs every node on the walk from `x` directly below its representative. */
    method Compress(x: string, found: string)
      requires Valid() && x in parent && x in tree.root && tree.root[x] == found
      modifies this`parent, this`tree
      ensures Valid() && tree == old(tree).(parent := parent)
    {
      hide Sound, Lists;
      ghost var before := tree;
      RootStep(tree, x);
      var cur := x;
      while parent[cur] != found
        invariant parent == tree.parent && Sound(tree)
        invariant tree == before.(parent := parent) && parent.Keys == before.parent.Keys
        invariant found in before.rank && cur in before.rank && before.rank[cur] <= before.rank[found]
        invariant cur in parent && cur in before.root && before.root[cur] == found
        decreases before.rank[found] - before.rank[cur]
      {
        RootStep(tree, cur);
        var next := parent[cur];
        RootStep(tree, next);
        CompressSound(tree, cur);
        tree := Hung(tree, cur);
        parent := parent[cur := found];
        cur := next;
      }
    }

    method Union(a: string, b: string)
      requires Valid()
      modifies this
      ensures Valid() && tree.links == old(tree.links) + {(a, b)}
      ensures tree.root.Keys == old(tree.root).Keys + {a, b}
      ensures
        var nodes := WithNode(WithNode(old(tree.root), a), b);
        a in nodes && b in nodes && tree.root == Joined(nodes, a, b)
    {
      hide Sound, Lists, United, WithNode, Max, Members, Joined;
      var ra := Find(a);
      ghost var middle := tree.root;
      var rb := Find(b);
      WithNodeKeeps(middle, a, b);
      WithNodesKeys(old(tree.root), a, b);
      SameNodes(tree);
      RootStep(tree, a);
      RootStep(tree, b);
      if ra == rb {
        SameClassSound(tree, a, b);
        JoinedSame(tree.root, a, b);
        tree := tree.(links := tree.links + {(a, b)});
        return;
      }
      var big, small := if size[ra] >= size[rb] then ra else rb, if size[ra] >= size[rb] then rb else ra;
      UniteSound(tree, a, b, big, small);
      JoinedUnites(tree, a, b, big, small);
      UnitedNodes(tree, a, b, big, small);
      Hang(big, small, United(tree, big, small, a, b));
    }

    /** The two map writes of a union. */
    method Hang(big: string, small: string, ghost united: Tree)
      requires Valid() && big in size && small in size && Sound(united)
      requires united.parent == parent[small := big] && united.parent.Keys == parent.Keys
      requires united.size == size[big := size[big] + size[small]]
      modifies this
      ensures Valid() && tree == united
    {
      hide Sound, Lists;
      parent := parent[small := big];
      size := size[big := size[big] + size[small]];
      tree := united;
    }

    /** The classes as sorted lists, largest first. */
    method Components() returns (groups: seq<seq<string>>)
      requires Valid()
      modifies this
      ensures Valid() && tree.links == old(tree.links) && tree.root == old(tree.root)
      ensures Partition(groups, tree.root)
    {
      var keys: seq<string> := [];
      var members: map<string, seq<string>> := map[];
      var nodes := order;
      ghost var root := tree.root;
      assert Grouped([], root, keys, members);
      SameNodes(tree);
      hide Sound, Partition, Grouped, NodeOk, Lists, Sort, StringLe, GroupLe;
      for k := 0 to |nodes|
        invariant Valid() && tree.links == old(tree.links) && tree.root == root && order == nodes
        invariant root.Keys == parent.Keys && Grouped(nodes[..k], root, keys, members)
      {
        var x := nodes[k];
        ListsMember(nodes, parent.Keys, x);
        var r := Find(x);
        PrefixStep(nodes, k);
        GroupedStep(nodes[..k], root, keys, members, x);
        if r in members {
          members := members[r := members[r] + [x]];
        } else {
          keys, members := keys + [r], members[r := [x]];
        }
      }
      assert nodes[..|nodes|] == nodes;
      GroupedKeys(nodes, root, keys, members);
      var sorted := seq(|keys|, i requires 0 <= i < |keys| => Sort(members[keys[i]], StringLe));
      GroupsPartition(nodes, root, keys, members, sorted);
      groups := Sort(sorted, GroupLe);
    }
  }

  /** The grouping pass over a prefix of the nodes: one bucket per class met so far. */
  ghost predicate Grouped(nodes: seq<string>, root: map<string, string>, keys: seq<string>,
                          members: map<string, seq<string>>)
  {
    && NoDuplicates(keys) && (forall r :: r in keys <==> r in members)
    && (forall x | x in nodes :: x in root && root[x] in members)
    && (forall r | r in members :: members[r] != [] && members[r] == Having(nodes, root, r))
  }

  lemma GroupedKeys(nodes: seq<string>, root: map<string, string>, keys: seq<string>,
                    members: map<string, seq<string>>)
    requires Grouped(nodes, root, keys, members)
    ensures forall r :: r in keys <==> r in members
  {
  }

  lemma GroupedStep(nodes: seq<string>, root: map<string, string>, keys: seq<string>,
                    members: map<string, seq<string>>, x: string)
    requires Grouped(nodes, root, keys, members) && x in root
    ensures root[x] in members ==>
              Grouped(nodes + [x], root, keys, members[root[x] := members[root[x]] + [x]])
    ensures root[x] !in members ==>
              Grouped(nodes + [x], root, keys + [root[x]], members[root[x] := [x]])
  {
    forall s ensures Having(nodes + [x], root, s)
                  == Having(nodes, root, s) + (if root[x] == s then [x] else []) {
      HavingStep(nodes, root, s, x);
    }
    if root[x] !in members {
      HavingEmpty(nodes, root, root[x]);
    }
  }

  lemma GroupsPartition(nodes: seq<string>, root: map<string, string>, keys: seq<string>,
                        members: map<string, seq<string>>, sorted: seq<seq<string>>)
    requires Lists(nodes, root.Keys)
    requires Grouped(nodes, root, keys, members)
    requires |sorted| == |keys| && forall i | 0 <= i < |keys| :: sorted[i] == Sort(members[keys[i]], StringLe)
    ensures Partition(Sort(sorted, GroupLe), root)
  {
    forall i | 0 <= i < |keys| ensures IsClass(sorted[i], root) && root[sorted[i][0]] == keys[i] {
      SortedClass(nodes, root, keys[i]);
    }
    hide IsClass, GroupLe;
    forall x | x in root ensures exists g :: g in sorted && x in g {
      var i :| 0 <= i < |keys| && keys[i] == root[x];
      InClass(sorted[i], root, x);
      assert sorted[i] in sorted;
    }
    assert NoDuplicates(sorted);
    PartitionSorted(sorted, root);
  }

  /** Ordering the list of classes keeps it a partition. */
  lemma PartitionSorted(classes: seq<seq<string>>, root: map<string, string>)
    requires NoDuplicates(classes) && forall g | g in classes :: IsClass(g, root)
    requires forall x | x in root :: exists g :: g in classes && x in g
    ensures Partition(Sort(classes, GroupLe), root)
  {
    GroupOrder();
    hide IsClass, GroupLe;
    SortCorrect(classes, GroupLe);
    SortMembers(classes, GroupLe);
    DistinctSorted(classes, GroupLe);
  }

  lemma InClass(g: seq<string>, root: map<string, string>, x: string)
    requires IsClass(g, root) && x in root && root[x] == root[g[0]]
    ensures x in g
  {
  }

  lemma SortedClass(nodes: seq<string>, root: map<string, string>, r: string)
    requires NoDuplicates(nodes) && (forall x :: x in nodes <==> x in root)
    requires Having(nodes, root, r) != []
    ensures IsClass(Sort(Having(nodes, root, r), StringLe), root)
    ensures root[Sort(Having(nodes, root, r), StringLe)[0]] == r
  {
    StringOrder();
    var g := Having(nodes, root, r);
    HavingMembers(nodes, root, r);
    SortCorrect(g, StringLe);
    SortMembers(g, StringLe);
    DistinctSorted(g, StringLe);
    assert Sort(g, StringLe)[0] in g;
  }
}
