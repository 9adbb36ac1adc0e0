/** How many edges a cluster of n wallets can hold, and what that says about its published figures. */
module ClusterDensity {
  import opened Common
  import opened Connectivity
  import opened Sorting
  import opened Pairwise
  import opened Clustering

  function InternalCount(edges: seq<GraphEdge>, t: set<string>): nat {
    if edges == [] then 0
    else (if edges[0].a in t && edges[0].b in t then 1 else 0) + InternalCount(edges[1..], t)
  }

  /** Taking in one more wallet along an edge brings at least that edge inside. */
  lemma {:induction false} InternalGrows(edges: seq<GraphEdge>, t: set<string>, v: string, k: nat)
    requires k < |edges| && v !in t
    requires (edges[k].a in t && edges[k].b == v) || (edges[k].b in t && edges[k].a == v)
    ensures InternalCount(edges, t + {v}) >= InternalCount(edges, t) + 1
  {
    if k > 0 {
      InternalGrows(edges[1..], t, v, k - 1);
    } else {
      InternalMonotone(edges[1..], t, v);
    }
  }

  lemma {:induction false} InternalMonotone(edges: seq<GraphEdge>, t: set<string>, v: string)
    ensures InternalCount(edges, t + {v}) >= InternalCount(edges, t)
  {
    if edges != [] { InternalMonotone(edges[1..], t, v); }
  }

  /** A path that leaves a set crosses its border along some link. */
  lemma {:induction false} Crossing(links: set<(string, string)>, p: seq<string>, t: set<string>) returns (i: nat)
    requires IsPath(links, p) && p[0] in t && p[|p| - 1] !in t
    ensures i + 1 < |p| && p[i] in t && p[i + 1] !in t && Linked(links, p[i], p[i + 1])
  {
    i := 0;
    while p[i + 1] in t
      invariant i + 1 < |p| && p[i] in t
      decreases |p| - i
    {
      i := i + 1;
    }
  }

  /** A proper part of a connected set is left by some edge, into the rest of the set. */
  lemma BorderEdge(edges: seq<GraphEdge>, s: set<string>, t: set<string>) returns (v: string, k: nat)
    requires t <= s && t != {} && t != s
    requires forall x, y | x in s && y in s :: Connected(LinksOf(edges), x, y)
    requires forall e | e in edges && (e.a in s || e.b in s) :: e.a in s && e.b in s
    ensures v in s && v !in t && k < |edges|
    ensures (edges[k].a in t && edges[k].b == v) || (edges[k].b in t && edges[k].a == v)
  {
    assert s == t + (s - t);
    var x :| x in t;
    var y :| y in s - t;
    var p :| IsPath(LinksOf(edges), p) && p[0] == x && p[|p| - 1] == y;
    var i := Crossing(LinksOf(edges), p, t);
    v := p[i + 1];
    k :| 0 <= k < |edges| && (edges[k].a, edges[k].b) in {(p[i], v), (v, p[i])};
    assert edges[k] in edges;
  }

  /** A connected set grown from one member gains a wallet and an edge at a time. */
  lemma {:induction false} ConnectedHasEdges(edges: seq<GraphEdge>, s: set<string>, t: set<string>)
    requires t <= s && t != {} && InternalCount(edges, t) >= |t| - 1
    requires forall x, y | x in s && y in s :: Connected(LinksOf(edges), x, y)
    requires forall e | e in edges && (e.a in s || e.b in s) :: e.a in s && e.b in s
    ensures InternalCount(edges, s) >= |s| - 1
    decreases |s - t|
  {
    if t != s {
      var v, k := BorderEdge(edges, s, t);
      InternalGrows(edges, t, v, k);
      assert s - (t + {v}) == (s - t) - {v};
      ConnectedHasEdges(edges, s, t + {v});
    }
  }

  lemma {:induction false} InternalIsFrom(edges: seq<GraphEdge>, w: seq<string>)
    requires forall e | e in edges && e.a in w :: e.b in w
    ensures InternalCount(edges, set x | x in w) == |EdgesFrom(edges, w)|
  {
    if edges != [] {
      assert edges[0] in edges;
      assert forall e | e in edges[1..] :: e in edges;
      InternalIsFrom(edges[1..], w);
    }
  }

  lemma {:induction false} DistinctSize(w: seq<string>)
    requires NoDuplicates(w)
    ensures |set x | x in w| == |w|
  {
    if w != [] {
      DistinctSize(w[1..]);
      assert (set x | x in w) == (set x | x in w[1..]) + {w[0]};
      assert w[0] !in w[1..];
    }
  }

  /** A component of n wallets holds at least n - 1 edges. */
  lemma ComponentEdgesAtLeast(edges: seq<GraphEdge>, w: seq<string>)
    requires IsComponent(edges, w)
    ensures |EdgesFrom(edges, w)| >= |w| - 1
  {
    var s := set x | x in w;
    var links := LinksOf(edges);
    forall x, y | x in s && y in s ensures Connected(links, x, y) {
      ConnectedSymmetric(links, w[0], x);
      ConnectedTransitive(links, x, w[0], y);
    }
    forall e | e in edges && (e.a in s || e.b in s) ensures e.a in s && e.b in s { EdgeInside(edges, w, e); }
    hide IsComponent;
    ConnectedHasEdges(edges, s, {w[0]});
    InternalIsFrom(edges, w);
    DistinctSize(w);
  }

  predicate OrderedPair(p: (string, string)) {
    p.0 != p.1 && StringLe(p.0, p.1)
  }

  function Touching(pairs: seq<(string, string)>, v: string): seq<string> {
    if pairs == [] then []
    else if pairs[0].0 == v then [pairs[0].1] + Touching(pairs[1..], v)
    else if pairs[0].1 == v then [pairs[0].0] + Touching(pairs[1..], v)
    else Touching(pairs[1..], v)
  }

  function Avoiding(pairs: seq<(string, string)>, v: string): seq<(string, string)> {
    if pairs == [] then []
    else if pairs[0].0 == v || pairs[0].1 == v then Avoiding(pairs[1..], v)
    else [pairs[0]] + Avoiding(pairs[1..], v)
  }

  lemma {:induction false} TouchingMembers(pairs: seq<(string, string)>, v: string)
    ensures forall x | x in Touching(pairs, v) :: (v, x) in pairs || (x, v) in pairs
    ensures forall p :: p in Avoiding(pairs, v) <==> p in pairs && p.0 != v && p.1 != v
    ensures |pairs| == |Touching(pairs, v)| + |Avoiding(pairs, v)|
  {
    if pairs != [] { TouchingMembers(pairs[1..], v); }
  }

  lemma HeadUnique(pairs: seq<(string, string)>)
    requires NoDuplicates(pairs) && pairs != []
    ensures NoDuplicates(pairs[1..]) && pairs[0] !in pairs[1..]
  {
    forall p | p in pairs[1..] ensures p != pairs[0] {
      var k :| 0 <= k < |pairs| - 1 && pairs[1..][k] == p;
      assert pairs[0] != pairs[k + 1];
    }
  }

  lemma {:induction false} SplitDistinct(pairs: seq<(string, string)>, v: string)
    requires NoDuplicates(pairs) && forall p | p in pairs :: OrderedPair(p)
    ensures NoDuplicates(Touching(pairs, v)) && NoDuplicates(Avoiding(pairs, v))
  {
    if pairs != [] {
      HeadUnique(pairs);
      assert forall p | p in pairs[1..] :: p in pairs;
      SplitDistinct(pairs[1..], v);
      TouchingMembers(pairs[1..], v);
      assert OrderedPair(pairs[0]);
      StringOrder();
    }
  }

  /** Distinct ordered pairs over n names number at most n(n-1)/2. */
  lemma {:induction false} PairsBound(pairs: seq<(string, string)>, s: set<string>)
    requires NoDuplicates(pairs) && forall p | p in pairs :: OrderedPair(p) && p.0 in s && p.1 in s
    ensures 2 * |pairs| <= |s| * (|s| - 1)
    decreases |s|
  {
    if s == {} {
      NoMembersEmpty(pairs);
    } else {
      var v :| v in s;
      TouchingMembers(pairs, v);
      SplitDistinct(pairs, v);
      forall x | x in Touching(pairs, v) ensures x in s - {v} {
        assert OrderedPair((v, x)) || OrderedPair((x, v));
      }
      NoDuplicatesBound(Touching(pairs, v), s - {v});
      PairsBound(Avoiding(pairs, v), s - {v});
      var n := |s|;
      assert |s - {v}| == n - 1;
      assert (n - 1) * (n - 2) + 2 * (n - 1) == n * (n - 1);
    }
  }

  lemma {:induction false} FromEndsDistinct(edges: seq<GraphEdge>, w: seq<string>)
    requires NoDuplicates(Ends(edges))
    ensures NoDuplicates(Ends(EdgesFrom(edges, w)))
  {
    if edges != [] {
      assert Ends(edges)[1..] == Ends(edges[1..]);
      HeadUnique(Ends(edges));
      FromEndsDistinct(edges[1..], w);
      var rest := EdgesFrom(edges[1..], w);
      if edges[0].a in w {
        var ends := Ends([edges[0]] + rest);
        assert ends == [Ends(edges)[0]] + Ends(rest);
        forall k | 0 <= k < |rest| ensures Ends(rest)[k] != Ends(edges)[0] {
          assert rest[k] in edges[1..];
          var i :| 0 <= i < |edges| - 1 && edges[1..][i] == rest[k];
          assert Ends(edges[1..])[i] in Ends(edges)[1..];
        }
      }
    }
  }

  /** An edge list in which every unordered pair appears at most once and no wallet meets itself. */
  ghost predicate SimpleEdges(edges: seq<GraphEdge>) {
    NoDuplicates(Ends(edges)) && forall e | e in edges :: OrderedPair((e.a, e.b))
  }

  lemma ComponentEdgesAtMost(edges: seq<GraphEdge>, w: seq<string>)
    requires IsComponent(edges, w) && SimpleEdges(edges)
    ensures 2 * |EdgesFrom(edges, w)| <= |w| * (|w| - 1)
  {
    hide IsComponent, OrderedPair, NoDuplicates, EdgesFrom;
    InsidePairs(edges, w);
    DistinctSizeOf(edges, w);
    PairsBound(Ends(EdgesFrom(edges, w)), set x | x in w);
  }

  lemma InsidePairs(edges: seq<GraphEdge>, w: seq<string>)
    requires IsComponent(edges, w) && SimpleEdges(edges)
    ensures NoDuplicates(Ends(EdgesFrom(edges, w)))
    ensures forall p | p in Ends(EdgesFrom(edges, w)) :: OrderedPair(p) && p.0 in w && p.1 in w
  {
    hide IsComponent, OrderedPair, NoDuplicates;
    FromEndsDistinct(edges, w);
    var inside := EdgesFrom(edges, w);
    forall p | p in Ends(inside) ensures OrderedPair(p) && p.0 in w && p.1 in w {
      var k :| 0 <= k < |inside| && Ends(inside)[k] == p;
      assert inside[k] in edges;
      EdgeInside(edges, w, inside[k]);
    }
  }

  lemma DistinctSizeOf(edges: seq<GraphEdge>, w: seq<string>)
    requires IsComponent(edges, w)
    ensures |set x | x in w| == |w|
  {
    DistinctSize(w);
  }

  lemma {:induction false} SumAtLeast(edges: seq<GraphEdge>, threshold: real)
    requires forall e | e in edges :: e.score >= threshold
    ensures SumScores(edges) >= |edges| as real * threshold
  {
    if edges != [] {
      var front := edges[..|edges| - 1];
      assert forall e | e in front :: e in edges;
      SumAtLeast(front, threshold);
      assert edges[|edges| - 1] in edges;
      OneMore(|front|, threshold);
    }
  }

  lemma OneMore(n: nat, threshold: real)
    ensures (n + 1) as real * threshold == n as real * threshold + threshold
  {
    assert (n + 1) as real == n as real + 1.0;
  }

  lemma DensityRange(n: int, m: int)
    requires n >= 2 && n - 1 <= m && 2 * m <= n * (n - 1)
    ensures PossiblePairs(n) > 0.0
    ensures 2.0 / n as real <= m as real / PossiblePairs(n) <= 1.0
  {
    var pairs := PossiblePairs(n);
    assert n * (n - 1) >= 2 by { assert n * (n - 1) >= n; }
    assert m as real <= pairs;
    RealQuotient(m as real, pairs, 2.0, n as real);
    assert 2.0 * pairs == n as real * (n - 1) as real by {
      assert (n * (n - 1)) as real == n as real * (n - 1) as real;
    }
    assert n as real * m as real >= n as real * (n - 1) as real;
  }

  lemma RealQuotient(a: real, b: real, c: real, d: real)
    requires b > 0.0 && d > 0.0
    ensures a <= b ==> a / b <= 1.0
    ensures d * a >= c * b ==> a / b >= c / d
  {
    if d * a >= c * b {
      Cancel(c / d, a / b, d * b);
      assert (c / d) * (d * b) == c * b && (a / b) * (d * b) == d * a;
    }
  }

  lemma Cancel(x: real, y: real, k: real)
    requires k > 0.0
    ensures x * k <= y * k <==> x <= y
  {
  }

  /** For the edges the pairwise pass builds, a cluster of n wallets lists between n - 1 and n(n-1)/2 edges. */
  lemma ClusterEdgeCount(edges: seq<GraphEdge>, byWallet: map<string, seq<Evidence>>, opts: EdgeOptions,
                         minClusterSize: int, c: Cluster)
    requires QualifyingEdges(edges, byWallet, opts) && ClusterOk(edges, minClusterSize, c)
    ensures |c.wallets| >= 2
    ensures |c.wallets| - 1 <= |c.edges| && 2 * |c.edges| <= |c.wallets| * (|c.wallets| - 1)
  {
    hide IsComponent, QualifyingEdges, SimpleEdges, Measured, EdgesFrom;
    QualifyingSimple(edges, byWallet, opts);
    ComponentEdgesAtLeast(edges, c.wallets);
    ComponentEdgesAtMost(edges, c.wallets);
    NotAlone(edges, c.wallets);
  }

  /** Hence its density lies in [2/n, 1], and its mean score reaches the threshold. */
  lemma ClusterFigures(edges: seq<GraphEdge>, byWallet: map<string, seq<Evidence>>, opts: EdgeOptions,
                       minClusterSize: int, c: Cluster)
    requires QualifyingEdges(edges, byWallet, opts) && ClusterOk(edges, minClusterSize, c)
    ensures |c.wallets| >= 2 && 2.0 / |c.wallets| as real <= c.density <= 1.0
    ensures c.meanEdgeScore >= opts.edgeThreshold
  {
    hide IsComponent, QualifyingEdges, Measured;
    ClusterEdgeCount(edges, byWallet, opts, minClusterSize, c);
    QualifyingScores(edges, byWallet, opts);
    MeasuredFigures(c, opts.edgeThreshold);
  }

  /**
   * What the figures of a published cluster make of its confidence: a pair is never LOW and is HIGH from a mean of 0.9;
   * nothing of up to four wallets is LOW; and the wider a cluster is spread, the more its mean has to say.
   */
  lemma ClusterConfidenceMeans(edges: seq<GraphEdge>, byWallet: map<string, seq<Evidence>>, opts: EdgeOptions,
                               minClusterSize: int, c: Cluster)
    requires QualifyingEdges(edges, byWallet, opts) && ClusterOk(edges, minClusterSize, c)
    ensures c.confidence == HIGH <==> c.meanEdgeScore >= 0.9 && c.density >= 0.75
    ensures c.confidence == LOW <==> c.meanEdgeScore < 0.7 && c.density < 0.5
    ensures |c.wallets| <= 4 ==> c.confidence != LOW
    ensures |c.wallets| == 2 ==> (c.confidence == HIGH <==> c.meanEdgeScore >= 0.9)
  {
    hide IsComponent, QualifyingEdges;
    ClusterFigures(edges, byWallet, opts, minClusterSize, c);
    SmallDense(|c.wallets|);
  }

  lemma SmallDense(n: nat)
    requires n >= 2
    ensures n <= 4 ==> 2.0 / n as real >= 0.5
    ensures n == 2 ==> 2.0 / n as real == 1.0
  {
    if n == 3 { assert 2.0 / 3.0 >= 0.5; }
  }

  lemma MeasuredFigures(c: Cluster, threshold: real)
    requires Measured(c) && |c.wallets| >= 2
    requires |c.wallets| - 1 <= |c.edges| && 2 * |c.edges| <= |c.wallets| * (|c.wallets| - 1)
    requires forall e | e in c.edges :: e.score >= threshold
    ensures 2.0 / |c.wallets| as real <= c.density <= 1.0 && c.meanEdgeScore >= threshold
  {
    hide ClusterConfidence, PossiblePairs;
    DensityRange(|c.wallets|, |c.edges|);
    SumAtLeast(c.edges, threshold);
    MeanAtLeast(SumScores(c.edges), |c.edges|, threshold);
  }

  lemma QualifyingSimple(edges: seq<GraphEdge>, byWallet: map<string, seq<Evidence>>, opts: EdgeOptions)
    requires QualifyingEdges(edges, byWallet, opts)
    ensures SimpleEdges(edges)
  {
    hide EdgeFor, Covered, NoDuplicates, StringLe;
  }

  lemma QualifyingScores(edges: seq<GraphEdge>, byWallet: map<string, seq<Evidence>>, opts: EdgeOptions)
    requires QualifyingEdges(edges, byWallet, opts)
    ensures forall e | e in edges :: e.score >= opts.edgeThreshold
  {
  }

  lemma MeanAtLeast(sum: real, m: int, threshold: real)
    requires m > 0 && sum >= m as real * threshold
    ensures sum / m as real >= threshold
  {
    Cancel(threshold, sum / m as real, m as real);
  }

  /** Every wallet in the graph has a neighbour, so no component is a single wallet. */
  lemma NotAlone(edges: seq<GraphEdge>, w: seq<string>)
    requires IsComponent(edges, w) && SimpleEdges(edges)
    ensures |w| >= 2
  {
    var e :| e in edges && (e.a == w[0] || e.b == w[0]);
    assert w[0] in w && OrderedPair((e.a, e.b));
    EdgeInside(edges, w, e);
  }
}
