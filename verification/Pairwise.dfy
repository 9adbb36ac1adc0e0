/** Pairwise wallet relationships: the signals that put an edge between two wallets. */
module Pairwise {
  import opened Common
  import opened Sorting

  datatype Evidence = Evidence(
    counterparty: Option<string>, eventType: string, timestamp: int, blockNumber: int, amount: Option<string>)

  datatype Funder = Funder(address: string, at: int)

  datatype EdgeOptions = EdgeOptions(edgeThreshold: real, fundingWindowHours: real)

  datatype PairScore = PairScore(fundingCorrelation: real, sharedCounterparty: real, score: real)

  datatype GraphEdge = GraphEdge(a: string, b: string, score: real, fundingCorrelation: real, sharedCounterparty: real)

  const MS_PER_HOUR: real := 3_600_000.0

  /** An empty string is no counterparty. */
  predicate Known(counterparty: Option<string>) {
    counterparty.Some? && counterparty.value != ""
  }

  predicate Inbound(e: Evidence) {
    e.eventType == "transfer" && Known(e.counterparty)
  }

  /** `k` is the first of the inbound transfers that carry the least timestamp. */
  ghost predicate IsFirstInbound(events: seq<Evidence>, k: int) {
    && 0 <= k < |events| && Inbound(events[k])
    && (forall i | 0 <= i < |events| && Inbound(events[i]) :: events[k].timestamp <= events[i].timestamp)
    && (forall i | 0 <= i < k && Inbound(events[i]) :: events[k].timestamp < events[i].timestamp)
  }

  ghost predicate FundsFrom(events: seq<Evidence>, k: int, f: Funder) {
    IsFirstInbound(events, k) && f == Funder(events[k].counterparty.value, events[k].timestamp)
  }

  function EarliestFunder(events: seq<Evidence>): Option<Funder> {
    if events == [] then None
    else
      var earlier, e := EarliestFunder(events[..|events| - 1]), events[|events| - 1];
      if Inbound(e) && (earlier.None? || e.timestamp < earlier.value.at)
      then Some(Funder(e.counterparty.value, e.timestamp))
      else earlier
  }

  /** The funder is unknown exactly when nothing came in; otherwise it sent the first arrival. */
  lemma {:induction false} EarliestFunderFirst(events: seq<Evidence>)
    ensures EarliestFunder(events).None? <==> forall e | e in events :: !Inbound(e)
    ensures EarliestFunder(events).Some? ==> exists k :: FundsFrom(events, k, EarliestFunder(events).value)
  {
    if events != [] {
      var before, e := events[..|events| - 1], events[|events| - 1];
      assert events == before + [e];
      EarliestFunderFirst(before);
      var earlier := EarliestFunder(before);
      if Inbound(e) && (earlier.None? || e.timestamp < earlier.value.at) {
        if earlier.Some? {
          var k :| FundsFrom(before, k, earlier.value);
          assert forall i | 0 <= i < |before| && Inbound(before[i]) :: before[k].timestamp <= before[i].timestamp;
        }
        assert FundsFrom(events, |events| - 1, EarliestFunder(events).value);
      } else if earlier.Some? {
        var k :| FundsFrom(before, k, earlier.value);
        assert FundsFrom(events, k, earlier.value);
      }
    }
  }

  method FindEarliestFunder(events: seq<Evidence>) returns (best: Option<Funder>)
    ensures best == EarliestFunder(events)
  {
    best := None;
    for k := 0 to |events|
      invariant best == EarliestFunder(events[..k])
    {
      var e := events[k];
      assert events[..k + 1][..k] == events[..k];
      if Inbound(e) && (best.None? || e.timestamp < best.value.at) {
        best := Some(Funder(e.counterparty.value, e.timestamp));
      }
    }
    assert events[..|events|] == events;
  }

  predicate SharesFunder(a: seq<Evidence>, b: seq<Evidence>, windowHours: real) {
    var fa, fb := EarliestFunder(a), EarliestFunder(b);
    && fa.Some? && fb.Some? && fa.value.address == fb.value.address
    && AbsReal((fa.value.at - fb.value.at) as real) / MS_PER_HOUR <= windowHours
  }

  function CounterpartySet(events: seq<Evidence>): set<string> {
    set e | e in events && Known(e.counterparty) :: e.counterparty.value
  }

  /** Share of the union that is common; two unknown wallets are not alike. */
  function Jaccard(a: set<string>, b: set<string>): real {
    if a + b == {} then 0.0 else |a * b| as real / |a + b| as real
  }

  lemma JaccardRange(a: set<string>, b: set<string>)
    ensures 0.0 <= Jaccard(a, b) <= 1.0 && Jaccard(a, b) == Jaccard(b, a)
    ensures Jaccard(a, b) == 1.0 <==> a == b && a != {}
  {
    assert a * b == b * a && a + b == b + a;
    SubsetSize(a * b, a + b);
    if a + b != {} {
      assert |a + b| > 0;
      if |a * b| == |a + b| {
        assert a + b == a * b + ((a + b) - a * b);
        assert (a + b) - a * b == {};
        assert forall x | x in a + b :: x in a * b;
        assert a == b;
      }
      if a == b { assert a * b == a + b; }
      QuotientRange(|a * b|, |a + b|);
    }
  }

  lemma QuotientRange(n: nat, d: nat)
    requires n <= d && d > 0
    ensures 0.0 <= n as real / d as real <= 1.0
    ensures n as real / d as real == 1.0 <==> n == d
  {
  }

  /** Counts the overlap by walking the smaller set. */
  method CountJaccard(a: set<string>, b: set<string>) returns (similarity: real)
    ensures similarity == Jaccard(a, b)
  {
    if |a| == 0 && |b| == 0 { return 0.0; }
    var small, large := if |a| <= |b| then a else b, if |a| <= |b| then b else a;
    var todo, intersection := small, 0;
    while todo != {}
      invariant todo <= small && intersection == |(small - todo) * large|
      decreases todo
    {
      var v :| v in todo;
      OverlapStep(small, large, todo, v);
      if v in large {
        intersection := intersection + 1;
      }
      todo := todo - {v};
    }
    UnionSize(a, b, small, large);
    var union := |a| + |b| - intersection;
    similarity := if union == 0 then 0.0 else intersection as real / union as real;
  }

  lemma OverlapStep(small: set<string>, large: set<string>, todo: set<string>, v: string)
    requires todo <= small && v in todo
    ensures |(small - (todo - {v})) * large| == |(small - todo) * large| + (if v in large then 1 else 0)
  {
    var before, after := (small - todo) * large, (small - (todo - {v})) * large;
    assert after == if v in large then before + {v} else before;
  }

  lemma UnionSize(a: set<string>, b: set<string>, small: set<string>, large: set<string>)
    requires (small == a && large == b) || (small == b && large == a)
    ensures |(small - {}) * large| == |a * b| && |a + b| == |a| + |b| - |a * b|
    ensures |a| > 0 || |b| > 0 ==> |a + b| > 0
  {
    assert (small - {}) * large == a * b;
    SubsetSize(a, a + b);
    SubsetSize(b, a + b);
  }

  function ScorePair(a: seq<Evidence>, b: seq<Evidence>, opts: EdgeOptions): PairScore {
    var funding := if SharesFunder(a, b, opts.fundingWindowHours) then 1.0 else 0.0;
    var shared := Jaccard(CounterpartySet(a), CounterpartySet(b));
    PairScore(funding, shared, MaxReal(funding, shared))
  }

  function EdgeFor(a: string, b: string, byWallet: map<string, seq<Evidence>>, opts: EdgeOptions): GraphEdge
    requires a in byWallet && b in byWallet
  {
    var s := ScorePair(byWallet[a], byWallet[b], opts);
    GraphEdge(a, b, s.score, s.fundingCorrelation, s.sharedCounterparty)
  }

  function Ends(edges: seq<GraphEdge>): seq<(string, string)> {
    seq(|edges|, k requires 0 <= k < |edges| => (edges[k].a, edges[k].b))
  }

  /** Each unordered pair of wallets at or above the threshold, once, smaller name first. */
  ghost predicate QualifyingEdges(edges: seq<GraphEdge>, byWallet: map<string, seq<Evidence>>, opts: EdgeOptions) {
    && NoDuplicates(Ends(edges))
    && (forall e | e in edges :: && e.a in byWallet && e.b in byWallet && e.a != e.b && StringLe(e.a, e.b)
                                 && e == EdgeFor(e.a, e.b, byWallet, opts) && e.score >= opts.edgeThreshold)
    && (forall a, b | a in byWallet && b in byWallet && a != b && StringLe(a, b) ::
          Covered(edges, a, b, byWallet, opts))
  }

  /** What the double loop has emitted once it reaches position (i, j) of the sorted wallets. */
  ghost predicate EdgesUpTo(edges: seq<GraphEdge>, wallets: seq<string>, byWallet: map<string, seq<Evidence>>,
                            opts: EdgeOptions, i: int, j: int)
    requires forall w | w in wallets :: w in byWallet
  {
    && NoDuplicates(Ends(edges))
    && (forall e | e in edges :: Emitted(e, wallets, byWallet, opts, i, j))
    && (forall p, q | Reached(p, q, |wallets|, i, j) :: Covered(edges, wallets[p], wallets[q], byWallet, opts))
  }

  ghost predicate Emitted(e: GraphEdge, wallets: seq<string>, byWallet: map<string, seq<Evidence>>,
                          opts: EdgeOptions, i: int, j: int)
    requires forall w | w in wallets :: w in byWallet
  {
    exists p, q :: Reached(p, q, |wallets|, i, j) && e == EdgeFor(wallets[p], wallets[q], byWallet, opts)
                   && e.score >= opts.edgeThreshold
  }

  ghost predicate Covered(edges: seq<GraphEdge>, a: string, b: string, byWallet: map<string, seq<Evidence>>,
                          opts: EdgeOptions)
    requires a in byWallet && b in byWallet
  {
    EdgeFor(a, b, byWallet, opts).score >= opts.edgeThreshold ==> EdgeFor(a, b, byWallet, opts) in edges
  }

  predicate Reached(p: int, q: int, n: int, i: int, j: int) {
    0 <= p < q < n && (p < i || (p == i && q < j))
  }

  // ---- what an edge says about its two wallets ----

  /** The transfer that came in first: it has a sender, none came earlier, and none at its instant stands before it. */
  ghost predicate FirstArrival(events: seq<Evidence>, k: nat) {
    && k < |events| && Arrived(events[k])
    && (forall i | 0 <= i < |events| && Arrived(events[i]) ::
          events[k].timestamp < events[i].timestamp || (events[k].timestamp == events[i].timestamp && k <= i))
  }

  ghost predicate Arrived(e: Evidence) {
    e.eventType == "transfer" && e.counterparty.Some? && e.counterparty.value != ""
  }

  /** The first arrivals of both came from one address, at most so many hours apart. */
  ghost predicate FundedTogether(a: seq<Evidence>, b: seq<Evidence>, hours: real) {
    exists k: nat, l: nat :: FirstArrival(a, k) && FirstArrival(b, l) && OneSender(a[k], b[l], hours)
  }

  ghost predicate OneSender(d: Evidence, e: Evidence, hours: real) {
    && d.counterparty == e.counterparty
    && (d.timestamp - e.timestamp) as real <= hours * 3_600_000.0
    && (e.timestamp - d.timestamp) as real <= hours * 3_600_000.0
  }

  ghost function FundingSignal(a: seq<Evidence>, b: seq<Evidence>, hours: real): real {
    if FundedTogether(a, b, hours) then 1.0 else 0.0
  }

  /** Everyone a wallet dealt with. */
  ghost function Partners(events: seq<Evidence>): set<string> {
    set k | 0 <= k < |events| && events[k].counterparty.Some? && events[k].counterparty.value != "" ::
      events[k].counterparty.value
  }

  /** The common share of the partners of both; nothing when neither dealt with anyone. */
  ghost predicate CommonShare(a: seq<Evidence>, b: seq<Evidence>, share: real) {
    var all := Partners(a) + Partners(b);
    share * |all| as real == |Partners(a) * Partners(b)| as real && (all == {} ==> share == 0.0)
  }

  lemma FirstArrivalIs(events: seq<Evidence>, k: nat)
    ensures FirstArrival(events, k) <==> IsFirstInbound(events, k)
  {
    if FirstArrival(events, k) {
      assert forall i | 0 <= i < |events| && Inbound(events[i]) :: Arrived(events[i]);
    }
    if IsFirstInbound(events, k) {
      assert forall i | 0 <= i < |events| && Arrived(events[i]) :: Inbound(events[i]);
    }
  }

  lemma FirstArrivalUnique(events: seq<Evidence>, k: nat, l: nat)
    requires FirstArrival(events, k) && FirstArrival(events, l)
    ensures k == l
  {
  }

  lemma FunderArrived(events: seq<Evidence>) returns (k: nat)
    requires exists i :: 0 <= i < |events| && Arrived(events[i])
    ensures FirstArrival(events, k)
    ensures EarliestFunder(events) == Some(Funder(events[k].counterparty.value, events[k].timestamp))
  {
    hide EarliestFunder;
    EarliestFunderFirst(events);
    var i :| 0 <= i < |events| && Arrived(events[i]);
    assert Inbound(events[i]) && events[i] in events;
    var j :| FundsFrom(events, j, EarliestFunder(events).value);
    k := j;
    FirstArrivalIs(events, k);
  }

  lemma NobodyArrived(events: seq<Evidence>)
    requires forall i | 0 <= i < |events| :: !Arrived(events[i])
    ensures EarliestFunder(events) == None
    ensures forall k: nat :: !FirstArrival(events, k)
  {
    hide EarliestFunder;
    EarliestFunderFirst(events);
    forall e | e in events ensures !Inbound(e) {
      var i :| 0 <= i < |events| && events[i] == e;
      assert !Arrived(events[i]);
    }
  }

  ghost predicate AnyArrived(events: seq<Evidence>) {
    exists i :: 0 <= i < |events| && Arrived(events[i])
  }

  lemma SharesFunderMeans(a: seq<Evidence>, b: seq<Evidence>, hours: real)
    ensures SharesFunder(a, b, hours) <==> FundedTogether(a, b, hours)
  {
    hide EarliestFunder, Arrived;
    if !AnyArrived(a) {
      NobodyArrived(a);
    } else if !AnyArrived(b) {
      NobodyArrived(b);
    } else {
      var k := FunderArrived(a);
      var l := FunderArrived(b);
      ArrivalKnown(a, k);
      ArrivalKnown(b, l);
      HoursApart((a[k].timestamp - b[l].timestamp) as real, hours);
      if FundedTogether(a, b, hours) {
        var m: nat, n: nat :| FirstArrival(a, m) && FirstArrival(b, n) && OneSender(a[m], b[n], hours);
        FirstArrivalUnique(a, k, m);
        FirstArrivalUnique(b, l, n);
      }
    }
  }

  lemma ArrivalKnown(events: seq<Evidence>, k: nat)
    requires FirstArrival(events, k)
    ensures k < |events| && events[k].counterparty.Some?
  {
  }

  lemma HoursApart(ms: real, hours: real)
    ensures AbsReal(ms) / MS_PER_HOUR <= hours <==> ms <= hours * 3_600_000.0 && -ms <= hours * 3_600_000.0
  {
    assert AbsReal(ms) / MS_PER_HOUR * MS_PER_HOUR == AbsReal(ms);
  }

  lemma PartnersAre(events: seq<Evidence>)
    ensures Partners(events) == CounterpartySet(events)
  {
    forall x ensures x in Partners(events) <==> x in CounterpartySet(events) {
      if x in CounterpartySet(events) {
        var e :| e in events && Known(e.counterparty) && e.counterparty.value == x;
        var k :| 0 <= k < |events| && events[k] == e;
        assert events[k].counterparty.value in Partners(events);
      }
      if x in Partners(events) {
        var k :| 0 <= k < |events| && events[k].counterparty == Some(x) && x != "";
        assert events[k] in events && Known(events[k].counterparty);
      }
    }
  }

  lemma JaccardMeans(a: seq<Evidence>, b: seq<Evidence>, share: real)
    ensures CommonShare(a, b, share) <==> share == Jaccard(CounterpartySet(a), CounterpartySet(b))
  {
    PartnersAre(a);
    PartnersAre(b);
    var all, common := Partners(a) + Partners(b), Partners(a) * Partners(b);
    if all == {} {
      assert common == {};
    } else {
      ShareOf(|common|, |all|, share);
    }
  }

  lemma ShareOf(part: nat, whole: nat, share: real)
    requires whole > 0
    ensures share * whole as real == part as real <==> share == part as real / whole as real
  {
    var n, d := part as real, whole as real;
    assert n / d * d == n;
    if share * d == n { assert (share - n / d) * d == 0.0; }
  }

  /** The figures of an edge: what each signal is, and that the score is the greater of them. */
  ghost predicate EdgeMeans(e: GraphEdge, byWallet: map<string, seq<Evidence>>, opts: EdgeOptions) {
    && e.a in byWallet && e.b in byWallet
    && e.fundingCorrelation == FundingSignal(byWallet[e.a], byWallet[e.b], opts.fundingWindowHours)
    && CommonShare(byWallet[e.a], byWallet[e.b], e.sharedCounterparty)
    && e.score >= e.fundingCorrelation && e.score >= e.sharedCounterparty
    && (e.score == e.fundingCorrelation || e.score == e.sharedCounterparty)
  }

  /** One of the two signals reaches the threshold. */
  ghost predicate Related(a: seq<Evidence>, b: seq<Evidence>, opts: EdgeOptions) {
    || FundingSignal(a, b, opts.fundingWindowHours) >= opts.edgeThreshold
    || exists share :: CommonShare(a, b, share) && share >= opts.edgeThreshold
  }

  ghost predicate Listed(edges: seq<GraphEdge>, a: string, b: string) {
    exists e :: e in edges && ((e.a == a && e.b == b) || (e.a == b && e.b == a))
  }

  lemma EdgeForMeans(a: string, b: string, byWallet: map<string, seq<Evidence>>, opts: EdgeOptions)
    requires a in byWallet && b in byWallet
    ensures EdgeMeans(EdgeFor(a, b, byWallet, opts), byWallet, opts)
    ensures EdgeFor(a, b, byWallet, opts).score >= opts.edgeThreshold <==> Related(byWallet[a], byWallet[b], opts)
  {
    hide SharesFunder, FundedTogether, Jaccard, CommonShare;
    SharesFunderMeans(byWallet[a], byWallet[b], opts.fundingWindowHours);
    var edge := EdgeFor(a, b, byWallet, opts);
    JaccardMeans(byWallet[a], byWallet[b], edge.sharedCounterparty);
    if share :| CommonShare(byWallet[a], byWallet[b], share) && share >= opts.edgeThreshold {
      JaccardMeans(byWallet[a], byWallet[b], share);
    }
  }

  lemma RelatedSymmetric(a: seq<Evidence>, b: seq<Evidence>, opts: EdgeOptions)
    ensures Related(a, b, opts) ==> Related(b, a, opts)
  {
    hide FundedTogether, CommonShare;
    if FundedTogether(a, b, opts.fundingWindowHours) { FundedSymmetric(a, b, opts.fundingWindowHours); }
    if FundedTogether(b, a, opts.fundingWindowHours) { FundedSymmetric(b, a, opts.fundingWindowHours); }
    if share :| CommonShare(a, b, share) && share >= opts.edgeThreshold { CommonSymmetric(a, b, share); }
  }

  lemma CommonSymmetric(a: seq<Evidence>, b: seq<Evidence>, share: real)
    requires CommonShare(a, b, share)
    ensures CommonShare(b, a, share)
  {
    hide Partners;
    assert Partners(a) + Partners(b) == Partners(b) + Partners(a);
    assert Partners(a) * Partners(b) == Partners(b) * Partners(a);
  }

  lemma FundedSymmetric(a: seq<Evidence>, b: seq<Evidence>, hours: real)
    requires FundedTogether(a, b, hours)
    ensures FundedTogether(b, a, hours)
  {
    var k: nat, l: nat :| FirstArrival(a, k) && FirstArrival(b, l) && OneSender(a[k], b[l], hours);
    assert OneSender(b[l], a[k], hours);
  }

  /** Every listed edge says what its wallets have in common, and a pair is listed exactly when it is related. */
  lemma EdgesMean(edges: seq<GraphEdge>, byWallet: map<string, seq<Evidence>>, opts: EdgeOptions)
    requires QualifyingEdges(edges, byWallet, opts)
    ensures forall e | e in edges :: EdgeMeans(e, byWallet, opts)
    ensures forall a, b | a in byWallet && b in byWallet && a != b ::
      Listed(edges, a, b) <==> Related(byWallet[a], byWallet[b], opts)
  {
    hide EdgeFor, EdgeMeans, Related, StringLe;
    forall e | e in edges ensures EdgeMeans(e, byWallet, opts) && Related(byWallet[e.a], byWallet[e.b], opts) {
      EdgeForMeans(e.a, e.b, byWallet, opts);
    }
    forall a, b | a in byWallet && b in byWallet && a != b
      ensures Listed(edges, a, b) <==> Related(byWallet[a], byWallet[b], opts)
    {
      StringOrder();
      EdgeForMeans(a, b, byWallet, opts);
      EdgeForMeans(b, a, byWallet, opts);
      EdgeEnds(a, b, byWallet, opts);
      EdgeEnds(b, a, byWallet, opts);
      RelatedSymmetric(byWallet[a], byWallet[b], opts);
      RelatedSymmetric(byWallet[b], byWallet[a], opts);
      assert StringLe(a, b) || StringLe(b, a);
      assert StringLe(a, b) ==> Covered(edges, a, b, byWallet, opts);
      assert StringLe(b, a) ==> Covered(edges, b, a, byWallet, opts);
    }
  }

  /** By the first name, then by the second. */
  predicate EdgeBefore(d: GraphEdge, e: GraphEdge) {
    StringLe(d.a, e.a) && (d.a == e.a ==> StringLe(d.b, e.b))
  }

  ghost predicate InNameOrder(edges: seq<GraphEdge>) {
    forall i, j | 0 <= i < j < |edges| :: EdgeBefore(edges[i], edges[j])
  }

  lemma OrderStep(edges: seq<GraphEdge>, wallets: seq<string>, byWallet: map<string, seq<Evidence>>,
                  opts: EdgeOptions, i: int, j: int)
    requires SortedBy(wallets, StringLe) && NoDuplicates(wallets) && forall w | w in wallets :: w in byWallet
    requires 0 <= i < j < |wallets| && EdgesUpTo(edges, wallets, byWallet, opts, i, j) && InNameOrder(edges)
    ensures InNameOrder(edges + [EdgeFor(wallets[i], wallets[j], byWallet, opts)])
  {
    hide EdgeFor, StringLe, Covered;
    var edge := EdgeFor(wallets[i], wallets[j], byWallet, opts);
    EdgeEnds(wallets[i], wallets[j], byWallet, opts);
    forall e | e in edges ensures EdgeBefore(e, edge) {
      var p, q :| Reached(p, q, |wallets|, i, j) && e == EdgeFor(wallets[p], wallets[q], byWallet, opts);
      EdgeEnds(wallets[p], wallets[q], byWallet, opts);
      StringReflexive(wallets[i]);
    }
  }

  lemma StringReflexive(s: string)
    ensures StringLe(s, s)
  {
    StringOrder();
  }

  /** Every pair of wallets scored once, in name order; a pair below the threshold leaves no edge. */
  /** Edges come by their first name, and those of one first name by their second. */
  lemma OrderMeans(edges: seq<GraphEdge>, i: nat, j: nat)
    requires InNameOrder(edges) && i < j < |edges|
    ensures StringLe(edges[i].a, edges[j].a)
    ensures edges[i].a == edges[j].a ==> StringLe(edges[i].b, edges[j].b)
  {
  }

  method BuildEdges(byWallet: map<string, seq<Evidence>>, keys: seq<string>, opts: EdgeOptions)
    returns (edges: seq<GraphEdge>)
    requires NoDuplicates(keys) && forall w :: w in keys <==> w in byWallet
    ensures QualifyingEdges(edges, byWallet, opts) && InNameOrder(edges)
    ensures forall e | e in edges :: EdgeMeans(e, byWallet, opts)
    ensures forall a, b | a in byWallet && b in byWallet && a != b ::
      Listed(edges, a, b) <==> Related(byWallet[a], byWallet[b], opts)
  {
    hide EdgeFor, ScorePair, StringLe, Sort, EdgesUpTo, QualifyingEdges, NoDuplicates, SortedBy, Ends;
    hide EdgeMeans, Related;
    var wallets := Sort(keys, StringLe);
    SortedNames(keys);
    edges := [];
    EdgesStart(wallets, byWallet, opts);
    for i := 0 to |wallets|
      invariant EdgesUpTo(edges, wallets, byWallet, opts, i, i + 1) && InNameOrder(edges)
    {
      edges := ScoreRow(edges, wallets, byWallet, opts, i);
    }
    EdgesDone(edges, keys, wallets, byWallet, opts);
    EdgesMean(edges, byWallet, opts);
  }

  /** The inner loop: wallet `i` against every later one. */
  method ScoreRow(before: seq<GraphEdge>, wallets: seq<string>, byWallet: map<string, seq<Evidence>>,
                  opts: EdgeOptions, i: nat)
    returns (edges: seq<GraphEdge>)
    requires NoDuplicates(wallets) && i < |wallets| && forall w | w in wallets :: w in byWallet
    requires SortedBy(wallets, StringLe) && InNameOrder(before)
    requires EdgesUpTo(before, wallets, byWallet, opts, i, i + 1)
    ensures EdgesUpTo(edges, wallets, byWallet, opts, i + 1, i + 2) && InNameOrder(edges)
  {
    hide EdgeFor, EdgesUpTo, NoDuplicates, SortedBy, InNameOrder;
    edges := before;
    for j := i + 1 to |wallets|
      invariant EdgesUpTo(edges, wallets, byWallet, opts, i, j) && InNameOrder(edges)
    {
      var edge := EdgeFor(wallets[i], wallets[j], byWallet, opts);
      OrderStep(edges, wallets, byWallet, opts, i, j);
      EdgesStep(edges, wallets, byWallet, opts, i, j);
      if edge.score >= opts.edgeThreshold {
        edges := edges + [edge];
      }
    }
    EdgesRow(edges, wallets, byWallet, opts, i);
  }

  lemma SortedNames(keys: seq<string>)
    requires NoDuplicates(keys)
    ensures var wallets := Sort(keys, StringLe);
            SortedBy(wallets, StringLe) && NoDuplicates(wallets) && forall w :: w in wallets <==> w in keys
  {
    StringOrder();
    SortCorrect(keys, StringLe);
    SortMembers(keys, StringLe);
    DistinctSorted(keys, StringLe);
  }

  lemma EdgesStart(wallets: seq<string>, byWallet: map<string, seq<Evidence>>, opts: EdgeOptions)
    requires forall w | w in wallets :: w in byWallet
    ensures EdgesUpTo([], wallets, byWallet, opts, 0, 1)
  {
  }

  lemma EdgesStep(edges: seq<GraphEdge>, wallets: seq<string>, byWallet: map<string, seq<Evidence>>,
                  opts: EdgeOptions, i: int, j: int)
    requires NoDuplicates(wallets) && forall w | w in wallets :: w in byWallet
    requires 0 <= i < j < |wallets| && EdgesUpTo(edges, wallets, byWallet, opts, i, j)
    ensures var edge := EdgeFor(wallets[i], wallets[j], byWallet, opts);
            EdgesUpTo(if edge.score >= opts.edgeThreshold then edges + [edge] else edges,
                      wallets, byWallet, opts, i, j + 1)
  {
    EdgeEnds(wallets[i], wallets[j], byWallet, opts);
    var edge := EdgeFor(wallets[i], wallets[j], byWallet, opts);
    var next := if edge.score >= opts.edgeThreshold then edges + [edge] else edges;
    forall e | e in edges ensures (e.a, e.b) != (edge.a, edge.b) {
      var p, q :| Reached(p, q, |wallets|, i, j) && e == EdgeFor(wallets[p], wallets[q], byWallet, opts);
      EdgeEnds(wallets[p], wallets[q], byWallet, opts);
    }
    hide EdgeFor;
    AppendEnds(edges, edge);
    forall e | e in next ensures Emitted(e, wallets, byWallet, opts, i, j + 1) {
      if e in edges {
        assert Emitted(e, wallets, byWallet, opts, i, j);
        EmittedLater(e, wallets, byWallet, opts, i, j);
      } else {
        assert Reached(i, j, |wallets|, i, j + 1);
      }
    }
    forall p, q | Reached(p, q, |wallets|, i, j + 1) ensures Covered(next, wallets[p], wallets[q], byWallet, opts) {
      if !(p == i && q == j) {
        assert Reached(p, q, |wallets|, i, j);
        assert Covered(edges, wallets[p], wallets[q], byWallet, opts);
      }
    }
  }

  lemma EmittedLater(e: GraphEdge, wallets: seq<string>, byWallet: map<string, seq<Evidence>>,
                     opts: EdgeOptions, i: int, j: int)
    requires forall w | w in wallets :: w in byWallet
    requires Emitted(e, wallets, byWallet, opts, i, j)
    ensures Emitted(e, wallets, byWallet, opts, i, j + 1)
  {
    hide EdgeFor;
    var p, q :| Reached(p, q, |wallets|, i, j) && e == EdgeFor(wallets[p], wallets[q], byWallet, opts)
                && e.score >= opts.edgeThreshold;
    assert Reached(p, q, |wallets|, i, j + 1);
  }

  lemma AppendEnds(edges: seq<GraphEdge>, edge: GraphEdge)
    requires NoDuplicates(Ends(edges))
    requires forall e | e in edges :: (e.a, e.b) != (edge.a, edge.b)
    ensures NoDuplicates(Ends(edges + [edge]))
  {
    var ends := Ends(edges + [edge]);
    forall p, q | 0 <= p < q < |ends| ensures ends[p] != ends[q] {
      if q < |edges| { assert Ends(edges)[p] != Ends(edges)[q]; } else { assert edges[p] in edges; }
    }
  }

  lemma EdgeEnds(a: string, b: string, byWallet: map<string, seq<Evidence>>, opts: EdgeOptions)
    requires a in byWallet && b in byWallet
    ensures EdgeFor(a, b, byWallet, opts).a == a && EdgeFor(a, b, byWallet, opts).b == b
  {
  }

  /** A finished row is the empty start of the next. */
  lemma EdgesRow(edges: seq<GraphEdge>, wallets: seq<string>, byWallet: map<string, seq<Evidence>>,
                 opts: EdgeOptions, i: int)
    requires 0 <= i < |wallets| && forall w | w in wallets :: w in byWallet
    requires EdgesUpTo(edges, wallets, byWallet, opts, i, |wallets|)
    ensures EdgesUpTo(edges, wallets, byWallet, opts, i + 1, i + 2)
  {
    hide EdgeFor;
    assert forall p, q :: Reached(p, q, |wallets|, i + 1, i + 2) <==> Reached(p, q, |wallets|, i, |wallets|);
    forall e | e in edges ensures Emitted(e, wallets, byWallet, opts, i + 1, i + 2) {
      assert Emitted(e, wallets, byWallet, opts, i, |wallets|);
      var p, q :| Reached(p, q, |wallets|, i, |wallets|) && e == EdgeFor(wallets[p], wallets[q], byWallet, opts)
                  && e.score >= opts.edgeThreshold;
      assert Reached(p, q, |wallets|, i + 1, i + 2);
    }
  }

  lemma EdgesDone(edges: seq<GraphEdge>, keys: seq<string>, wallets: seq<string>,
                  byWallet: map<string, seq<Evidence>>, opts: EdgeOptions)
    requires SortedBy(wallets, StringLe) && NoDuplicates(wallets)
    requires forall w :: w in wallets <==> w in byWallet
    requires EdgesUpTo(edges, wallets, byWallet, opts, |wallets|, |wallets| + 1)
    ensures QualifyingEdges(edges, byWallet, opts)
  {
    StringOrder();
    forall e | e in edges
      ensures e.a in byWallet && e.b in byWallet && e.a != e.b && StringLe(e.a, e.b)
      ensures e == EdgeFor(e.a, e.b, byWallet, opts) && e.score >= opts.edgeThreshold
    {
      assert Emitted(e, wallets, byWallet, opts, |wallets|, |wallets| + 1);
      var p, q :| Reached(p, q, |wallets|, |wallets|, |wallets| + 1)
                  && e == EdgeFor(wallets[p], wallets[q], byWallet, opts) && e.score >= opts.edgeThreshold;
      EdgeEnds(wallets[p], wallets[q], byWallet, opts);
    }
    forall a, b | a in byWallet && b in byWallet && a != b && StringLe(a, b)
      ensures Covered(edges, a, b, byWallet, opts)
    {
      var p :| 0 <= p < |wallets| && wallets[p] == a;
      var q :| 0 <= q < |wallets| && wallets[q] == b;
      assert q < p ==> StringLe(b, a);
      assert Reached(p, q, |wallets|, |wallets|, |wallets| + 1);
    }
  }
}
