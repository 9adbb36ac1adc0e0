/** Undirected reachability over a set of links: the meaning a union-find has to match. */
module Connectivity {

  predicate Linked(links: set<(string, string)>, a: string, b: string) {
    (a, b) in links || (b, a) in links
  }

  ghost predicate IsPath(links: set<(string, string)>, p: seq<string>) {
    p != [] && forall i | 0 <= i < |p| - 1 :: Linked(links, p[i], p[i + 1])
  }

  ghost predicate Connected(links: set<(string, string)>, a: string, b: string) {
    exists p :: IsPath(links, p) && p[0] == a && p[|p| - 1] == b
  }

  lemma ConnectedReflexive(links: set<(string, string)>, a: string)
    ensures Connected(links, a, a)
  {
    assert IsPath(links, [a]);
  }

  lemma ConnectedLink(links: set<(string, string)>, a: string, b: string)
    requires Linked(links, a, b)
    ensures Connected(links, a, b)
  {
    var p := [a, b];
    assert IsPath(links, p) && p[0] == a && p[|p| - 1] == b;
  }

  lemma ConnectedSymmetric(links: set<(string, string)>, a: string, b: string)
    requires Connected(links, a, b)
    ensures Connected(links, b, a)
  {
    var p :| IsPath(links, p) && p[0] == a && p[|p| - 1] == b;
    var q := seq(|p|, i requires 0 <= i < |p| => p[|p| - 1 - i]);
    forall i | 0 <= i < |q| - 1 ensures Linked(links, q[i], q[i + 1]) {
      assert Linked(links, p[|p| - 2 - i], p[|p| - 2 - i + 1]);
    }
    assert IsPath(links, q) && q[0] == b && q[|q| - 1] == a;
  }

  lemma ConnectedTransitive(links: set<(string, string)>, a: string, b: string, c: string)
    requires Connected(links, a, b) && Connected(links, b, c)
    ensures Connected(links, a, c)
  {
    var p :| IsPath(links, p) && p[0] == a && p[|p| - 1] == b;
    var q :| IsPath(links, q) && q[0] == b && q[|q| - 1] == c;
    var r := p + q[1..];
    forall i | 0 <= i < |r| - 1 ensures Linked(links, r[i], r[i + 1]) {
      if i < |p| - 1 {
        assert Linked(links, p[i], p[i + 1]);
      } else {
        assert r[i] == q[i - |p| + 1] && r[i + 1] == q[i - |p| + 2];
        assert Linked(links, q[i - |p| + 1], q[i - |p| + 1 + 1]);
      }
    }
    assert IsPath(links, r) && r[0] == a && r[|r| - 1] == c;
  }

  lemma ConnectedMonotone(links: set<(string, string)>, more: set<(string, string)>, a: string, b: string)
    requires links <= more && Connected(links, a, b)
    ensures Connected(more, a, b)
  {
    var p :| IsPath(links, p) && p[0] == a && p[|p| - 1] == b;
    forall i | 0 <= i < |p| - 1 ensures Linked(more, p[i], p[i + 1]) {
      assert Linked(links, p[i], p[i + 1]);
    }
    assert IsPath(more, p);
  }

  /** A labelling that agrees across every link is constant along every path. */
  lemma {:induction false} LabelConstant(links: set<(string, string)>, root: map<string, string>, p: seq<string>)
    requires forall l | l in links :: l.0 in root && l.1 in root && root[l.0] == root[l.1]
    requires IsPath(links, p) && p[0] in root
    ensures p[|p| - 1] in root && root[p[|p| - 1]] == root[p[0]]
  {
    if |p| > 1 {
      assert Linked(links, p[0], p[0 + 1]);
      var rest := p[1..];
      forall i | 0 <= i < |rest| - 1 ensures Linked(links, rest[i], rest[i + 1]) {
        assert Linked(links, p[i + 1], p[i + 1 + 1]);
      }
      LabelConstant(links, root, rest);
    }
  }

  /** Two nodes carry the same label exactly when some path of links joins them. */
  ghost predicate Refines(root: map<string, string>, links: set<(string, string)>) {
    && (forall l | l in links :: l.0 in root && l.1 in root)
    && (forall x, y | x in root && y in root :: root[x] == root[y] <==> Connected(links, x, y))
  }

  lemma LinksAgree(root: map<string, string>, links: set<(string, string)>)
    requires Refines(root, links)
    ensures forall l | l in links :: root[l.0] == root[l.1]
  {
    forall l | l in links ensures root[l.0] == root[l.1] {
      ConnectedLink(links, l.0, l.1);
    }
  }

  /** A node joined to a labelled one by a path is labelled too. */
  lemma ConnectedStays(root: map<string, string>, links: set<(string, string)>, x: string, y: string)
    requires Refines(root, links) && x in root && Connected(links, x, y)
    ensures y in root
  {
    LinksAgree(root, links);
    var p :| IsPath(links, p) && p[0] == x && p[|p| - 1] == y;
    LabelConstant(links, root, p);
  }

  function WithNode(root: map<string, string>, x: string): map<string, string> {
    if x in root then root else root[x := x]
  }

  lemma WithNodeKeeps(root: map<string, string>, x: string, y: string)
    requires x in root
    ensures x in WithNode(root, y) && WithNode(root, y)[x] == root[x]
  {
  }

  lemma WithNodesKeys(root: map<string, string>, x: string, y: string)
    ensures WithNode(WithNode(root, x), y).Keys == root.Keys + {x, y}
  {
  }

  lemma WithNodeRefines(root: map<string, string>, links: set<(string, string)>, x: string)
    requires Refines(root, links) && forall y | y in root :: root[y] in root
    ensures Refines(WithNode(root, x), links)
  {
    if x !in root {
      ConnectedReflexive(links, x);
      forall y | y in root ensures !Connected(links, x, y) && !Connected(links, y, x) {
        if Connected(links, x, y) { ConnectedSymmetric(links, x, y); }
        if Connected(links, y, x) { ConnectedStays(root, links, y, x); }
      }
    }
  }

  /** Both classes of `a` and `b` relabelled with `winner`. */
  function Merge(root: map<string, string>, a: string, b: string, winner: string): (merged: map<string, string>)
    requires a in root && b in root
    ensures merged.Keys == root.Keys
  {
    map x | x in root :: if root[x] == root[a] || root[x] == root[b] then winner else root[x]
  }

  lemma MergeRefines(root: map<string, string>, links: set<(string, string)>, a: string, b: string, winner: string)
    requires Refines(root, links) && a in root && b in root && (winner == root[a] || winner == root[b])
    ensures Refines(Merge(root, a, b, winner), links + {(a, b)})
  {
    var merged := Merge(root, a, b, winner);
    var more := links + {(a, b)};
    LinksAgree(root, links);
    forall x, y | x in merged && y in merged && merged[x] == merged[y] ensures Connected(more, x, y) {
      MergedConnected(root, links, a, b, x, y);
    }
    forall x, y | x in merged && y in merged && Connected(more, x, y) ensures merged[x] == merged[y] {
      var p :| IsPath(more, p) && p[0] == x && p[|p| - 1] == y;
      LabelConstant(more, merged, p);
    }
  }

  lemma MergedConnected(root: map<string, string>, links: set<(string, string)>, a: string, b: string,
                        x: string, y: string)
    requires Refines(root, links) && a in root && b in root && x in root && y in root
    requires root[x] == root[y]
          || (root[x] in {root[a], root[b]} && root[y] in {root[a], root[b]})
    ensures Connected(links + {(a, b)}, x, y)
  {
    var more := links + {(a, b)};
    if root[x] == root[y] {
      ConnectedMonotone(links, more, x, y);
    } else {
      var u, v := if root[x] == root[a] then a else b, if root[x] == root[a] then b else a;
      ConnectedMonotone(links, more, x, u);
      ConnectedLink(more, u, v);
      ConnectedMonotone(links, more, v, y);
      ConnectedTransitive(more, x, u, v);
      ConnectedTransitive(more, x, v, y);
    }
  }
}
