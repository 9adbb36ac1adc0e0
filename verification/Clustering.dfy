/** Wallet clusters: the connected components of the edge list, largest first. */
module Clustering {
  import opened Common
  import opened Connectivity
  import opened Sorting
  import opened Pairwise
  import UF = UnionFind

  datatype Confidence = LOW | MEDIUM | HIGH

  datatype Cluster = Cluster(wallets: seq<string>, edges: seq<GraphEdge>, confidence: Confidence,
                             meanEdgeScore: real, density: real)

  function ClusterConfidence(meanEdgeScore: real, density: real): Confidence {
    if meanEdgeScore >= 0.9 && density >= 0.75 then HIGH
    else if meanEdgeScore >= 0.7 || density >= 0.5 then MEDIUM
    else LOW
  }

  ghost function LinksOf(edges: seq<GraphEdge>): set<(string, string)> {
    set e | e in edges :: (e.a, e.b)
  }

  ghost function NodesOf(edges: seq<GraphEdge>): set<string> {
    (set e | e in edges :: e.a) + (set e | e in edges :: e.b)
  }

  /** A sorted list of the wallets some path of edges joins to its first member, and of no others. */
  ghost predicate IsComponent(edges: seq<GraphEdge>, w: seq<string>) {
    && w != [] && SortedBy(w, StringLe) && NoDuplicates(w) && w[0] in NodesOf(edges)
    && forall x :: x in w <==> x in NodesOf(edges) && Connected(LinksOf(edges), w[0], x)
  }

  /** The edges that leave a member of `w`, in list order. */
  function EdgesFrom(edges: seq<GraphEdge>, w: seq<string>): (r: seq<GraphEdge>)
    ensures forall e :: e in r <==> e in edges && e.a in w
  {
    if edges == [] then []
    else if edges[0].a in w then [edges[0]] + EdgesFrom(edges[1..], w)
    else EdgesFrom(edges[1..], w)
  }

  function SumScores(edges: seq<GraphEdge>): real {
    if edges == [] then 0.0 else SumScores(edges[..|edges| - 1]) + edges[|edges| - 1].score
  }

  function PossiblePairs(n: int): real {
    (n * (n - 1)) as real / 2.0
  }

  /** The figures a cluster publishes about its own members and edges. */
  predicate Measured(c: Cluster) {
    && c.meanEdgeScore == (if c.edges == [] then 0.0 else SumScores(c.edges) / |c.edges| as real)
    && c.density == (if PossiblePairs(|c.wallets|) == 0.0 then 0.0
                     else |c.edges| as real / PossiblePairs(|c.wallets|))
    && c.confidence == ClusterConfidence(c.meanEdgeScore, c.density)
  }

  ghost predicate ClusterOk(edges: seq<GraphEdge>, minClusterSize: int, c: Cluster) {
    && IsComponent(edges, c.wallets) && |c.wallets| >= minClusterSize
    && c.edges == EdgesFrom(edges, c.wallets)
    && Measured(c)
  }

  function WalletLists(clusters: seq<Cluster>): seq<seq<string>> {
    seq(|clusters|, k requires 0 <= k < |clusters| => clusters[k].wallets)
  }

  /** Exactly the components of sufficient size, each once, largest first. */
  ghost predicate ExactClusters(edges: seq<GraphEdge>, minClusterSize: int, clusters: seq<Cluster>) {
    && (forall c | c in clusters :: ClusterOk(edges, minClusterSize, c))
    && (forall w | IsComponent(edges, w) && |w| >= minClusterSize :: w in WalletLists(clusters))
    && SortedBy(WalletLists(clusters), UF.GroupLe) && NoDuplicates(WalletLists(clusters))
  }

  function EdgesAt(edges: seq<GraphEdge>, root: map<string, string>, r: string): seq<GraphEdge> {
    if edges == [] then []
    else
      var e := edges[|edges| - 1];
      EdgesAt(edges[..|edges| - 1], root, r) + (if e.a in root && root[e.a] == r then [e] else [])
  }

  ghost predicate Bucketed(edges: seq<GraphEdge>, root: map<string, string>, buckets: map<string, seq<GraphEdge>>) {
    forall r :: (if r in buckets then buckets[r] else []) == EdgesAt(edges, root, r)
  }

  lemma BucketStep(edges: seq<GraphEdge>, k: nat, root: map<string, string>, buckets: map<string, seq<GraphEdge>>)
    requires k < |edges| && edges[k].a in root && Bucketed(edges[..k], root, buckets)
    ensures var r := root[edges[k].a];
            Bucketed(edges[..k + 1], root,
                     buckets[r := (if r in buckets then buckets[r] else []) + [edges[k]]])
  {
    assert edges[..k + 1][..k] == edges[..k];
  }

  /** Clusters come by size, the largest first, and those of one size by their first wallet. */
  lemma ClustersInOrder(edges: seq<GraphEdge>, minClusterSize: int, clusters: seq<Cluster>, i: nat, j: nat)
    requires ExactClusters(edges, minClusterSize, clusters) && i < j < |clusters|
    ensures clusters[i].wallets != [] && clusters[j].wallets != []
    ensures |clusters[i].wallets| >= |clusters[j].wallets|
    ensures |clusters[i].wallets| == |clusters[j].wallets| ==>
      StringLe(clusters[i].wallets[0], clusters[j].wallets[0])
  {
    hide StringLe;
    assert clusters[i] in clusters && clusters[j] in clusters;
    assert UF.GroupLe(WalletLists(clusters)[i], WalletLists(clusters)[j]);
  }

  method ClusterWallets(edges: seq<GraphEdge>, minClusterSize: int) returns (clusters: seq<Cluster>)
    ensures ExactClusters(edges, minClusterSize, clusters)
  {
    hide IsComponent, LinksOf, NodesOf, Bucketed, ExactClusters, ClustersUpTo, EdgesFrom, EdgesAt, SumScores,
         Refines, UF.Partition, UF.Sound, UF.Lists;
    NoEdges();
    var uf := new UF.UnionFind();
    for k := 0 to |edges|
      invariant fresh(uf) && uf.Valid() && uf.tree.links == LinksOf(edges[..k])
      invariant uf.tree.root.Keys == NodesOf(edges[..k])
    {
      GraphStep(edges, k);
      uf.Union(edges[k].a, edges[k].b);
    }
    assert edges[..|edges|] == edges;
    ghost var root := uf.tree.root;

    var buckets: map<string, seq<GraphEdge>> := map[];
    NoBuckets(root);
    for k := 0 to |edges|
      invariant fresh(uf) && uf.Valid() && uf.tree.root == root && uf.tree.links == LinksOf(edges)
      invariant Bucketed(edges[..k], root, buckets)
    {
      InNodes(edges, k);
      var r := uf.Find(edges[k].a);
      BucketStep(edges, k, root, buckets);
      buckets := buckets[r := (if r in buckets then buckets[r] else []) + [edges[k]]];
    }

    var groups := uf.Components();
    UF.RefinedForest(uf.tree);
    clusters := [];
    NoClusters(edges, minClusterSize);
    for k := 0 to |groups|
      invariant fresh(uf) && uf.Valid() && uf.tree.root == root
      invariant ClustersUpTo(edges, minClusterSize, groups[..k], clusters)
    {
      var wallets := groups[k];
      PrefixStep(groups, k);
      if |wallets| >= minClusterSize {
        ComponentOfClass(edges, root, groups, k);
        var r := uf.Find(wallets[0]);
        var memberEdges := if r in buckets then buckets[r] else [];
        MemberEdges(edges, root, buckets, wallets);
        var meanEdgeScore := if |memberEdges| == 0 then 0.0 else SumScores(memberEdges) / |memberEdges| as real;
        var possiblePairs := (|wallets| * (|wallets| - 1)) as real / 2.0;
        var density := if possiblePairs == 0.0 then 0.0 else |memberEdges| as real / possiblePairs;
        var c := Cluster(wallets, memberEdges, ClusterConfidence(meanEdgeScore, density), meanEdgeScore, density);
        ClusterStep(edges, minClusterSize, groups[..k], clusters, c);
        clusters := clusters + [c];
      } else {
        SkipStep(edges, minClusterSize, groups[..k], clusters, wallets);
      }
    }
    assert groups[..|groups|] == groups;
    ClustersExact(edges, minClusterSize, root, groups, clusters);
  }

  lemma NoEdges()
    ensures LinksOf([]) == {} && NodesOf([]) == {}
  {
  }

  lemma GraphStep(edges: seq<GraphEdge>, k: nat)
    requires k < |edges|
    ensures LinksOf(edges[..k + 1]) == LinksOf(edges[..k]) + {(edges[k].a, edges[k].b)}
    ensures NodesOf(edges[..k + 1]) == NodesOf(edges[..k]) + {edges[k].a, edges[k].b}
  {
    PrefixStep(edges, k);
  }

  lemma InNodes(edges: seq<GraphEdge>, k: nat)
    requires k < |edges|
    ensures edges[k].a in NodesOf(edges) && edges[k].b in NodesOf(edges)
  {
  }

  lemma NoBuckets(root: map<string, string>)
    ensures Bucketed([], root, map[])
  {
  }

  /** A class of the refined forest is a component of the graph. */
  lemma ComponentOfClass(edges: seq<GraphEdge>, root: map<string, string>, groups: seq<seq<string>>, k: nat)
    requires k < |groups| && UF.Partition(groups, root)
    requires Refines(root, LinksOf(edges)) && root.Keys == NodesOf(edges)
    ensures IsComponent(edges, groups[k]) && groups[k] != [] && groups[k][0] in root
  {
    hide LinksOf, NodesOf, NoDuplicates, SortedBy, StringLe, UF.Partition, Connected;
    var g := groups[k];
    UF.PartitionClass(groups, root, k);
    forall x ensures x in g <==> x in NodesOf(edges) && Connected(LinksOf(edges), g[0], x) {
      if x in root { assert root[g[0]] == root[x] <==> Connected(LinksOf(edges), g[0], x); }
    }
  }

  /** The edges collected under a root are those that leave its class. */
  lemma MemberEdges(edges: seq<GraphEdge>, root: map<string, string>, buckets: map<string, seq<GraphEdge>>,
                    w: seq<string>)
    requires Bucketed(edges, root, buckets) && w != [] && w[0] in root
    requires Refines(root, LinksOf(edges)) && root.Keys == NodesOf(edges) && IsComponent(edges, w)
    ensures var r := root[w[0]]; (if r in buckets then buckets[r] else []) == EdgesFrom(edges, w)
  {
    hide LinksOf, NodesOf;
    forall x | x in root ensures x in w <==> root[x] == root[w[0]] {
      assert root[w[0]] == root[x] <==> Connected(LinksOf(edges), w[0], x);
    }
    forall e | e in edges ensures e.a in root {
      var k :| 0 <= k < |edges| && edges[k] == e;
      InNodes(edges, k);
    }
    hide Refines, IsComponent;
    EdgesAtFrom(edges, root, root[w[0]], w);
  }

  lemma {:induction false} EdgesAtFrom(edges: seq<GraphEdge>, root: map<string, string>, r: string, w: seq<string>)
    requires forall e | e in edges :: e.a in root && (e.a in w <==> root[e.a] == r)
    ensures EdgesAt(edges, root, r) == EdgesFrom(edges, w)
  {
    if edges != [] {
      var front, e := edges[..|edges| - 1], edges[|edges| - 1];
      EdgesAtFrom(front, root, r, w);
      assert edges == front + [e];
      EdgesFromAppend(front, [e], w);
    }
  }

  lemma {:induction false} EdgesFromAppend(xs: seq<GraphEdge>, ys: seq<GraphEdge>, w: seq<string>)
    ensures EdgesFrom(xs + ys, w) == EdgesFrom(xs, w) + EdgesFrom(ys, w)
  {
    if xs == [] {
      assert xs + ys == ys;
    } else {
      assert (xs + ys)[1..] == xs[1..] + ys;
      EdgesFromAppend(xs[1..], ys, w);
    }
  }

  /** The clusters made from the classes seen so far: the large ones, in the same order. */
  ghost predicate ClustersUpTo(edges: seq<GraphEdge>, minClusterSize: int, groups: seq<seq<string>>,
                               clusters: seq<Cluster>)
  {
    && (forall c | c in clusters :: ClusterOk(edges, minClusterSize, c))
    && WalletLists(clusters) == Filter(groups, (g: seq<string>) => |g| >= minClusterSize)
  }

  lemma NoClusters(edges: seq<GraphEdge>, minClusterSize: int)
    ensures ClustersUpTo(edges, minClusterSize, [], [])
  {
  }

  lemma ClusterStep(edges: seq<GraphEdge>, minClusterSize: int, groups: seq<seq<string>>,
                    clusters: seq<Cluster>, c: Cluster)
    requires ClustersUpTo(edges, minClusterSize, groups, clusters)
    requires IsComponent(edges, c.wallets) && |c.wallets| >= minClusterSize
    requires c.edges == EdgesFrom(edges, c.wallets) && Measured(c)
    ensures ClustersUpTo(edges, minClusterSize, groups + [c.wallets], clusters + [c])
  {
    hide IsComponent;
    FilterAppend(groups, [c.wallets], (g: seq<string>) => |g| >= minClusterSize);
    assert WalletLists(clusters + [c]) == WalletLists(clusters) + [c.wallets];
  }

  lemma SkipStep(edges: seq<GraphEdge>, minClusterSize: int, groups: seq<seq<string>>,
                 clusters: seq<Cluster>, g: seq<string>)
    requires ClustersUpTo(edges, minClusterSize, groups, clusters) && |g| < minClusterSize
    ensures ClustersUpTo(edges, minClusterSize, groups + [g], clusters)
  {
    FilterAppend(groups, [g], (g: seq<string>) => |g| >= minClusterSize);
  }

  lemma ClustersExact(edges: seq<GraphEdge>, minClusterSize: int, root: map<string, string>,
                      groups: seq<seq<string>>, clusters: seq<Cluster>)
    requires UF.Partition(groups, root) && ClustersUpTo(edges, minClusterSize, groups, clusters)
    requires Refines(root, LinksOf(edges)) && root.Keys == NodesOf(edges)
    ensures ExactClusters(edges, minClusterSize, clusters)
  {
    var large := (g: seq<string>) => |g| >= minClusterSize;
    FilterOrdered(groups, large, UF.GroupLe);
    hide ClusterOk, UF.GroupLe;
    forall w | IsComponent(edges, w) && |w| >= minClusterSize ensures w in WalletLists(clusters) {
      ComponentListed(edges, root, groups, w);
      assert w in Filter(groups, large);
    }
  }

  /** Every component is one of the classes. */
  lemma ComponentListed(edges: seq<GraphEdge>, root: map<string, string>, groups: seq<seq<string>>, w: seq<string>)
    requires UF.Partition(groups, root) && IsComponent(edges, w)
    requires Refines(root, LinksOf(edges)) && root.Keys == NodesOf(edges)
    ensures w in groups
  {
    hide Refines, LinksOf, UF.IsClass, UF.GroupLe, StringLe;
    assert w[0] in w && w[0] in root;
    var g :| g in groups && w[0] in g;
    var k :| 0 <= k < |groups| && groups[k] == g;
    ComponentOfClass(edges, root, groups, k);
    hide IsComponent;
    ComponentUnique(edges, w, g, w[0]);
  }

  lemma {:induction false} FilterOrdered<T(!new)>(xs: seq<T>, keep: T -> bool, le: (T, T) -> bool)
    requires SortedBy(xs, le) && NoDuplicates(xs)
    ensures SortedBy(Filter(xs, keep), le) && NoDuplicates(Filter(xs, keep))
  {
    if xs != [] {
      FilterOrdered(xs[1..], keep, le);
      forall x | x in xs[1..] ensures le(xs[0], x) && x != xs[0] {
        var k :| 0 <= k < |xs| - 1 && xs[1..][k] == x;
        assert le(xs[0], xs[k + 1]) && xs[0] != xs[k + 1];
      }
    }
  }

  /** Two components that share a wallet are the same list. */
  lemma ComponentUnique(edges: seq<GraphEdge>, v: seq<string>, w: seq<string>, x: string)
    requires IsComponent(edges, v) && IsComponent(edges, w) && x in v && x in w
    ensures v == w
  {
    var links := LinksOf(edges);
    hide LinksOf, NodesOf;
    ConnectedSymmetric(links, w[0], x);
    ConnectedTransitive(links, v[0], x, w[0]);
    ConnectedSymmetric(links, v[0], w[0]);
    forall y ensures y in v <==> y in w {
      if y in v { ConnectedTransitive(links, w[0], v[0], y); }
      if y in w { ConnectedTransitive(links, v[0], w[0], y); }
    }
    StringOrder();
    SameMembersSameContents(v, w);
    SortedUnique(v, w, StringLe);
  }

  /** Both ends of an edge that leaves a component lie in it. */
  lemma EdgeInside(edges: seq<GraphEdge>, w: seq<string>, e: GraphEdge)
    requires IsComponent(edges, w) && e in edges && (e.a in w || e.b in w)
    ensures e.a in w && e.b in w
  {
    var k :| 0 <= k < |edges| && edges[k] == e;
    InNodes(edges, k);
    assert Linked(LinksOf(edges), e.a, e.b) && Linked(LinksOf(edges), e.b, e.a);
    var links := LinksOf(edges);
    hide LinksOf, NodesOf;
    ConnectedLink(links, e.a, e.b);
    ConnectedLink(links, e.b, e.a);
    if e.a in w { ConnectedTransitive(links, w[0], e.a, e.b); } else { ConnectedTransitive(links, w[0], e.b, e.a); }
  }

  /**
   * Clusters are pairwise disjoint, and an edge listed in a cluster has both ends
   * there, so no two clusters list the same edge.
   */
  lemma ClustersDisjoint(edges: seq<GraphEdge>, minClusterSize: int, clusters: seq<Cluster>, i: int, j: int)
    requires ExactClusters(edges, minClusterSize, clusters) && 0 <= i < j < |clusters|
    ensures forall x | x in clusters[i].wallets :: x !in clusters[j].wallets
    ensures forall e | e in clusters[i].edges ::
              e.a in clusters[i].wallets && e.b in clusters[i].wallets && e !in clusters[j].edges
  {
    var ci, cj := clusters[i], clusters[j];
    assert WalletLists(clusters)[i] != WalletLists(clusters)[j];
    assert ClusterOk(edges, minClusterSize, ci) && ClusterOk(edges, minClusterSize, cj);
    hide IsComponent, ExactClusters, Measured;
    forall x | x in ci.wallets ensures x !in cj.wallets {
      if x in cj.wallets { ComponentUnique(edges, ci.wallets, cj.wallets, x); }
    }
    forall e | e in ci.edges ensures e.a in ci.wallets && e.b in ci.wallets && e !in cj.edges {
      EdgeInside(edges, ci.wallets, e);
    }
  }

  /** The published member lists depend on which wallets are linked, not on the order of the edges. */
  lemma ClustersDetermined(edges: seq<GraphEdge>, others: seq<GraphEdge>, minClusterSize: int,
                           p: seq<Cluster>, q: seq<Cluster>)
    requires ExactClusters(edges, minClusterSize, p) && ExactClusters(others, minClusterSize, q)
    requires LinksOf(edges) == LinksOf(others)
    ensures WalletLists(p) == WalletLists(q)
  {
    SameNodes(edges, others);
    assert forall w :: IsComponent(edges, w) <==> IsComponent(others, w);
    ListedComponents(edges, minClusterSize, p);
    ListedComponents(others, minClusterSize, q);
    ListedDistinctFirst(edges, minClusterSize, p);
    hide IsComponent, ExactClusters;
    SameGroupsSameList(WalletLists(p), WalletLists(q));
  }

  lemma SameNodes(edges: seq<GraphEdge>, others: seq<GraphEdge>)
    requires LinksOf(edges) == LinksOf(others)
    ensures NodesOf(edges) == NodesOf(others)
  {
    forall e | e in edges ensures e.a in NodesOf(others) && e.b in NodesOf(others) {
      assert (e.a, e.b) in LinksOf(others);
    }
    forall e | e in others ensures e.a in NodesOf(edges) && e.b in NodesOf(edges) {
      assert (e.a, e.b) in LinksOf(edges);
    }
  }

  lemma ListedComponents(edges: seq<GraphEdge>, minClusterSize: int, clusters: seq<Cluster>)
    requires ExactClusters(edges, minClusterSize, clusters)
    ensures forall w :: w in WalletLists(clusters) <==> IsComponent(edges, w) && |w| >= minClusterSize
    ensures SortedBy(WalletLists(clusters), UF.GroupLe) && NoDuplicates(WalletLists(clusters))
  {
    hide IsComponent;
    forall w | w in WalletLists(clusters) ensures IsComponent(edges, w) && |w| >= minClusterSize {
      var k :| 0 <= k < |clusters| && clusters[k].wallets == w;
      assert ClusterOk(edges, minClusterSize, clusters[k]);
    }
  }

  lemma ListedDistinctFirst(edges: seq<GraphEdge>, minClusterSize: int, clusters: seq<Cluster>)
    requires ExactClusters(edges, minClusterSize, clusters)
    ensures DistinctFirst(WalletLists(clusters))
  {
    ListedComponents(edges, minClusterSize, clusters);
    forall v, w | v in WalletLists(clusters) && w in WalletLists(clusters)
      ensures v != [] && (v[0] == w[0] ==> v == w)
    {
      assert w[0] in w && v[0] in v;
      if v[0] == w[0] { ComponentUnique(edges, v, w, v[0]); }
    }
  }

  ghost predicate DistinctFirst(lists: seq<seq<string>>) {
    (forall v | v in lists :: v != []) && forall v, w | v in lists && w in lists && v[0] == w[0] :: v == w
  }

  lemma {:induction false} SameGroupsSameList(p: seq<seq<string>>, q: seq<seq<string>>)
    requires SortedBy(p, UF.GroupLe) && NoDuplicates(p) && SortedBy(q, UF.GroupLe) && NoDuplicates(q)
    requires forall w :: w in p <==> w in q
    requires DistinctFirst(p)
    ensures p == q
  {
    if p == [] {
      NoMembersEmpty(q);
    } else {
      assert p[0] in q && q != [] && q[0] in p;
      GroupHead(p, q);
      assert p == [p[0]] + p[1..] && q == [q[0]] + q[1..];
      forall w ensures w in p[1..] <==> w in q[1..] {
        TailWithout(p, w);
        TailWithout(q, w);
      }
      assert NoDuplicates(p[1..]) && NoDuplicates(q[1..]);
      forall w | w in p[1..] ensures w in p { TailWithout(p, w); }
      assert SortedBy(p[1..], UF.GroupLe) && SortedBy(q[1..], UF.GroupLe);
      SameGroupsSameList(p[1..], q[1..]);
    }
  }

  lemma TailWithout(p: seq<seq<string>>, w: seq<string>)
    requires p != [] && NoDuplicates(p)
    ensures w in p[1..] <==> w in p && w != p[0]
  {
    if w in p[1..] {
      var k :| 0 <= k < |p| - 1 && p[1..][k] == w;
      assert p[0] != p[k + 1];
    }
    if w in p && w != p[0] {
      var k :| 0 <= k < |p| && p[k] == w;
      assert p[1..][k - 1] == w;
    }
  }

  lemma GroupHead(p: seq<seq<string>>, q: seq<seq<string>>)
    requires SortedBy(p, UF.GroupLe) && SortedBy(q, UF.GroupLe) && p != [] && q != []
    requires (forall w :: w in p <==> w in q) && DistinctFirst(p)
    ensures p[0] == q[0]
  {
    StringOrder();
    assert p[0] in q && q[0] in p;
    var i :| 0 <= i < |q| && q[i] == p[0];
    var j :| 0 <= j < |p| && p[j] == q[0];
    if i != 0 && j != 0 {
      assert UF.GroupLe(q[0], q[i]) && UF.GroupLe(p[0], p[j]);
    }
  }
}
