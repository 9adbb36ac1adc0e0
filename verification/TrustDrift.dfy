/** Behaviour drift: what changed against an actor's own history, and by how much (`trust-drift.ts`). */
module TrustDrift {
  import opened Common
  import opened Sorting
  import opened OrderStatistics
  import opened BigIntText
  import opened CapabilityTypes

  datatype Event = Event(
    counterparty: Option<string>, eventType: string, protocolType: Option<string>, amount: Option<string>)

  datatype Options = Options(
    minBaselineEvents: int, unusualAmountMultiple: real, timingRegimeShiftHours: real,
    clusterExpansionMultiple: real)

  /** The settings are positive numbers. */
  predicate ValidOptions(o: Options) {
    o.unusualAmountMultiple > 0.0 && o.timingRegimeShiftHours > 0.0 && o.clusterExpansionMultiple > 0.0
  }

  datatype SignalName =
    | NEW_COUNTERPARTY
    | UNUSUAL_AMOUNT
    | NEW_PROTOCOL_CATEGORY
    | NEW_TIMING_REGIME
    | BEHAVIOR_SEQUENCE_DEVIATION
    | SUDDEN_CLUSTER_EXPANSION

  datatype Signal = Signal(name: SignalName, magnitude: real)

  datatype DriftResult = DriftResult(signals: seq<Signal>, peakMagnitude: real, hadBaseline: bool)

  /** What the clock and the graph say: mean hours of day, and cluster sizes when known. */
  datatype Context = Context(baseHour: Option<real>, recentHour: Option<real>, sizes: Option<(nat, nat)>)

  // ---- the median of whole amounts ----

  predicate AtMost(x: int, y: int) { x <= y }

  function Between(lo: int, hi: int): int -> bool { x => lo <= x <= hi }

  function MedianBigInt(values: seq<int>): Option<int> {
    if values == [] then None
    else
      var sorted, mid := Sort(values, AtMost), |values| / 2;
      if |values| % 2 == 1 then Some(sorted[mid]) else Some(Quotient(sorted[mid - 1] + sorted[mid], 2))
  }

  /** Whatever a minority of the amounts is, the median stays where the majority is. */
  lemma MedianBreakdown(values: seq<int>, lo: int, hi: int)
    requires Majority(values, Between(lo, hi))
    ensures MedianBigInt(values).Some? && lo <= MedianBigInt(values).value <= hi
  {
    MajorityHoldsMiddle(values, AtMost, Between(lo, hi));
    var mid := |values| / 2;
    assert Between(lo, hi)(Sort(values, AtMost)[mid]);
    if |values| % 2 == 0 { assert Between(lo, hi)(Sort(values, AtMost)[mid - 1]); }
  }

  /** The amount of an event, when it has one that reads as a number. */
  function AmountOf(e: Event): Option<int> { if e.amount.None? then None else ReadBigInt(e.amount.value) }

  function Readable(events: seq<Event>): seq<int> {
    if events == [] then []
    else
      var init, last := events[..|events| - 1], events[|events| - 1];
      if AmountOf(last).Some? then Readable(init) + [AmountOf(last).value] else Readable(init)
  }

  method ParseAmounts(events: seq<Event>) returns (out: seq<int>)
    ensures out == Readable(events)
  {
    out := [];
    for k := 0 to |events|
      invariant out == Readable(events[..k])
    {
      assert events[..k + 1][..k] == events[..k];
      var amount := AmountOf(events[k]);
      if amount.Some? { out := out + [amount.value]; }
    }
    assert events[..|events|] == events;
  }

  /** The largest amount, counted from zero. */
  function Largest(amounts: seq<int>): (m: int)
    ensures m >= 0 && (forall a | a in amounts :: a <= m) && (m == 0 || m in amounts)
  {
    if amounts == [] then 0
    else
      var init, last := amounts[..|amounts| - 1], amounts[|amounts| - 1];
      assert amounts == init + [last];
      Max(Largest(init), last)
  }

  // ---- the signals ----

  /** `Math.max(1, Math.round(x))`. */
  function WholeMultiple(x: real): int { Max(1, (x + 0.5).Floor) }

  function Share(part: nat, whole: nat): real
    requires whole > 0
  {
    MinReal(1.0, part as real / whole as real)
  }

  predicate Present(s: Option<string>) { s.Some? && s.value != "" }

  function Counterparties(events: seq<Event>): set<string> {
    set e | e in events && Present(e.counterparty) :: ToLower(e.counterparty.value)
  }

  function Protocols(events: seq<Event>): set<string> {
    set e | e in events && Present(e.protocolType) :: e.protocolType.value
  }

  function EventTypes(events: seq<Event>): set<string> { set e | e in events :: e.eventType }

  /** New values as a share of all recent ones; nothing when there are none. */
  function Novelty(name: SignalName, known: set<string>, recent: set<string>): seq<Signal> {
    if recent - known == {} then []
    else
      assert recent != {};
      [Signal(name, Share(|recent - known|, |recent|))]
  }

  function AmountSignal(baseline: seq<Event>, recent: seq<Event>, o: Options): seq<Signal>
    requires ValidOptions(o)
  {
    var median, amounts := MedianBigInt(Readable(baseline)), Readable(recent);
    if median.Some? && median.value > 0 && amounts != []
       && Largest(amounts) > median.value * WholeMultiple(o.unusualAmountMultiple)
    then
      [Signal(UNUSUAL_AMOUNT,
              MinReal(1.0, Largest(amounts) as real / median.value as real / (o.unusualAmountMultiple * 10.0)))]
    else []
  }

  /** Remainder of a non-negative number of hours on a 24-hour clock. */
  function Mod24(x: real): real { x - 24.0 * (x / 24.0).Floor as real }

  function HourDistance(a: real, b: real): real {
    var raw := Mod24(AbsReal(a - b));
    MinReal(raw, 24.0 - raw)
  }

  function TimingSignal(c: Context, o: Options): seq<Signal> {
    if c.baseHour.None? || c.recentHour.None? then []
    else
      var distance := HourDistance(c.baseHour.value, c.recentHour.value);
      if distance >= o.timingRegimeShiftHours then [Signal(NEW_TIMING_REGIME, MinReal(1.0, distance / 12.0))] else []
  }

  function ExpansionSignal(c: Context, o: Options): seq<Signal>
    requires ValidOptions(o)
  {
    if c.sizes.None? || c.sizes.value.0 == 0 then []
    else
      var multiple := c.sizes.value.1 as real / c.sizes.value.0 as real;
      if multiple >= o.clusterExpansionMultiple
      then [Signal(SUDDEN_CLUSTER_EXPANSION, MinReal(1.0, multiple / (o.clusterExpansionMultiple * 4.0)))]
      else []
  }

  function ProtocolSignal(baseline: seq<Event>, recent: seq<Event>): seq<Signal> {
    if Protocols(baseline) == {} then [] else Novelty(NEW_PROTOCOL_CATEGORY, Protocols(baseline), Protocols(recent))
  }

  function Signals(baseline: seq<Event>, recent: seq<Event>, c: Context, o: Options): seq<Signal>
    requires ValidOptions(o)
  {
    Novelty(NEW_COUNTERPARTY, Counterparties(baseline), Counterparties(recent))
    + AmountSignal(baseline, recent, o)
    + ProtocolSignal(baseline, recent)
    + TimingSignal(c, o)
    + Novelty(BEHAVIOR_SEQUENCE_DEVIATION, EventTypes(baseline), EventTypes(recent))
    + ExpansionSignal(c, o)
  }

  ghost predicate Fires(r: DriftResult, name: SignalName) {
    exists s :: s in r.signals && s.name == name
  }

  /** `peak` is the greatest magnitude, or 0 when there is none. */
  ghost predicate IsPeak(signals: seq<Signal>, peak: real) {
    && (forall s | s in signals :: s.magnitude <= peak)
    && (if signals == [] then peak == 0.0 else exists s :: s in signals && s.magnitude == peak)
  }

  // ---- properties of the signals ----

  ghost predicate Graded(signals: seq<Signal>) {
    forall s | s in signals :: 0.0 < s.magnitude <= 1.0
  }

  lemma SharePositive(part: nat, whole: nat)
    requires 0 < part && 0 < whole
    ensures 0.0 < Share(part, whole) <= 1.0
  {
    PositiveQuotient(part as real, whole as real);
  }

  lemma PositiveQuotient(n: real, d: real)
    requires n > 0.0 && d > 0.0
    ensures n / d > 0.0
  {
  }

  lemma NoveltyGraded(name: SignalName, known: set<string>, recent: set<string>)
    ensures Graded(Novelty(name, known, recent))
  {
    if recent - known != {} { SharePositive(|recent - known|, |recent|); }
  }

  /** Novelty is reported exactly when something recent was never seen, and in full when nothing recent was. */
  lemma NoveltyExact(name: SignalName, known: set<string>, recent: set<string>)
    ensures Novelty(name, known, recent) != [] <==> !(recent <= known)
    ensures Novelty(name, known, recent) == [Signal(name, 1.0)] <==> recent != {} && recent !! known
  {
    if recent - known != {} {
      if recent !! known {
        assert recent - known == recent;
        WholeShare(|recent|);
      } else {
        var x :| x in recent && x in known;
        assert recent - known < recent;
        FewerNovel(recent - known, recent);
      }
    }
  }

  lemma WholeShare(n: nat)
    requires n > 0
    ensures Share(n, n) == 1.0
  {
    assert n as real / n as real == 1.0;
  }

  lemma FewerNovel(part: set<string>, whole: set<string>)
    requires part < whole
    ensures |part| < |whole| && Share(|part|, |whole|) < 1.0
  {
    assert whole == part + (whole - part) && whole - part != {};
    var n, d := |part| as real, |whole| as real;
    assert n / d * d == n;
  }

  lemma AmountGraded(baseline: seq<Event>, recent: seq<Event>, o: Options)
    requires ValidOptions(o)
    ensures Graded(AmountSignal(baseline, recent, o))
  {
    hide MedianBigInt, Readable;
    var median, amounts := MedianBigInt(Readable(baseline)), Readable(recent);
    if AmountSignal(baseline, recent, o) != [] {
      PositiveProduct(median.value, WholeMultiple(o.unusualAmountMultiple));
      PositiveQuotient(Largest(amounts) as real, median.value as real);
      PositiveQuotient(Largest(amounts) as real / median.value as real, o.unusualAmountMultiple * 10.0);
    }
  }

  lemma PositiveProduct(a: int, b: int)
    requires a > 0 && b > 0
    ensures a * b > 0
  {
  }

  lemma OthersGraded(c: Context, o: Options)
    requires ValidOptions(o)
    ensures Graded(TimingSignal(c, o)) && Graded(ExpansionSignal(c, o))
  {
    hide HourDistance;
    if ExpansionSignal(c, o) != [] {
      var multiple := c.sizes.value.1 as real / c.sizes.value.0 as real;
      PositiveQuotient(multiple, o.clusterExpansionMultiple * 4.0);
    }
  }

  /** Every reported magnitude is above 0 and at most 1. */
  lemma SignalsGraded(baseline: seq<Event>, recent: seq<Event>, c: Context, o: Options)
    requires ValidOptions(o)
    ensures Graded(Signals(baseline, recent, c, o))
  {
    hide Novelty, AmountSignal, TimingSignal, ExpansionSignal, Counterparties, EventTypes, Protocols;
    NoveltyGraded(NEW_COUNTERPARTY, Counterparties(baseline), Counterparties(recent));
    AmountGraded(baseline, recent, o);
    NoveltyGraded(NEW_PROTOCOL_CATEGORY, Protocols(baseline), Protocols(recent));
    NoveltyGraded(BEHAVIOR_SEQUENCE_DEVIATION, EventTypes(baseline), EventTypes(recent));
    OthersGraded(c, o);
  }

  lemma SignalNames(baseline: seq<Event>, recent: seq<Event>, c: Context, o: Options)
    requires ValidOptions(o)
    ensures forall s | s in Signals(baseline, recent, c, o) ::
      s.name == UNUSUAL_AMOUNT <==> s in AmountSignal(baseline, recent, o)
  {
    hide Counterparties, EventTypes, Protocols, HourDistance, Share, Readable, MedianBigInt, Largest;
    forall s | s in Signals(baseline, recent, c, o)
      ensures s.name == UNUSUAL_AMOUNT <==> s in AmountSignal(baseline, recent, o)
    {
      var a := Novelty(NEW_COUNTERPARTY, Counterparties(baseline), Counterparties(recent));
      var b := ProtocolSignal(baseline, recent);
      var d := Novelty(BEHAVIOR_SEQUENCE_DEVIATION, EventTypes(baseline), EventTypes(recent));
      assert s in a || s in AmountSignal(baseline, recent, o) || s in b || s in TimingSignal(c, o)
        || s in d || s in ExpansionSignal(c, o);
    }
  }

  /** Hours of the clock are at most twelve apart, and the distance does not depend on the direction. */
  lemma HourDistanceRange(a: real, b: real)
    ensures 0.0 <= HourDistance(a, b) <= 12.0 && HourDistance(a, b) == HourDistance(b, a)
  {
    var x := AbsReal(a - b);
    var k := (x / 24.0).Floor as real;
    assert x / 24.0 - 1.0 < k <= x / 24.0;
  }

  // ---- what each signal is read from, and when it fires ----

  /** Counterparties are compared in lower case and protocols as they are; absent and empty names count for nothing. */
  lemma SeenExact(events: seq<Event>, name: string)
    ensures name in Counterparties(events) <==>
      exists e, x :: e in events && e.counterparty == Some(x) && x != "" && ToLower(x) == name
    ensures name in Protocols(events) <==> name != "" && exists e :: e in events && e.protocolType == Some(name)
    ensures name in EventTypes(events) <==> exists e :: e in events && e.eventType == name
  {
    if name in Counterparties(events) {
      var e :| e in events && Present(e.counterparty) && ToLower(e.counterparty.value) == name;
      assert e.counterparty == Some(e.counterparty.value);
    }
  }

  /** The event has this amount, as text that reads as it. */
  predicate Reads(e: Event, a: int) { e.amount.Some? && ReadBigInt(e.amount.value) == Some(a) }

  /** The amounts are those of the events that have a readable one, and as many. */
  lemma {:induction false} ReadableExact(events: seq<Event>)
    ensures forall a :: a in Readable(events) <==> exists k :: 0 <= k < |events| && Reads(events[k], a)
    ensures (forall e | e in events :: e.amount.Some? && ReadBigInt(e.amount.value).Some?) ==>
      |Readable(events)| == |events|
  {
    hide ReadBigInt;
    if events != [] {
      var init, last := events[..|events| - 1], events[|events| - 1];
      assert events == init + [last];
      ReadableExact(init);
      forall a ensures a in Readable(events) <==> exists k :: 0 <= k < |events| && Reads(events[k], a) {
        if Reads(last, a) { assert Reads(events[|events| - 1], a); }
        if k :| 0 <= k < |init| && Reads(init[k], a) { assert Reads(events[k], a); }
        if k :| 0 <= k < |events| && Reads(events[k], a) { assert k == |events| - 1 || Reads(init[k], a); }
      }
    }
  }

  /** The median of any ascending arrangement: its middle, or the mean of the two middle ones rounded toward zero. */
  lemma MedianExact(values: seq<int>, ascending: seq<int>)
    requires values != [] && multiset(ascending) == multiset(values)
    requires forall i, j | 0 <= i < j < |ascending| :: ascending[i] <= ascending[j]
    ensures |ascending| == |values| && MedianBigInt(values).Some?
    ensures
      var mid, median := |values| / 2, MedianBigInt(values).value;
      if |values| % 2 == 1 then median == ascending[mid]
      else
        var sum := ascending[mid - 1] + ascending[mid];
        && (sum >= 0 ==> 2 * median <= sum <= 2 * median + 1)
        && (sum <= 0 ==> 2 * median - 1 <= sum <= 2 * median)
  {
    assert TotalPreorder(AtMost);
    SortCorrect(values, AtMost);
    SortedUnique(Sort(values, AtMost), ascending, AtMost);
    assert |multiset(ascending)| == |ascending| && |multiset(values)| == |values|;
  }

  /** The multiple is the setting rounded to the nearest whole number, halves up, and at least one. */
  lemma WholeMultipleExact(x: real)
    ensures WholeMultiple(x) >= 1
    ensures x >= 0.5 ==> x - 0.5 < WholeMultiple(x) as real <= x + 0.5
    ensures x < 0.5 ==> WholeMultiple(x) == 1
  {
  }

  /** How unusual an amount is: in full from ten times the setting times the median on, in proportion below. */
  lemma AmountMagnitude(baseline: seq<Event>, recent: seq<Event>, o: Options)
    requires ValidOptions(o) && AmountSignal(baseline, recent, o) != []
    ensures MedianBigInt(Readable(baseline)).Some? && Readable(recent) != []
    ensures
      var signals, m := AmountSignal(baseline, recent, o), MedianBigInt(Readable(baseline)).value as real;
      var largest, full := Largest(Readable(recent)) as real, m * (o.unusualAmountMultiple * 10.0);
      && |signals| == 1 && signals[0].name == UNUSUAL_AMOUNT
      && (largest >= full ==> signals[0].magnitude == 1.0)
      && (largest < full ==> signals[0].magnitude * full == largest)
  {
    hide MedianBigInt, Readable, Largest, WholeMultiple;
    var m, k := MedianBigInt(Readable(baseline)).value as real, o.unusualAmountMultiple * 10.0;
    TwiceDivided(Largest(Readable(recent)) as real, m, k);
  }

  lemma TwiceDivided(x: real, m: real, k: real)
    requires m > 0.0 && k > 0.0
    ensures x / m / k * (m * k) == x
    ensures x >= m * k <==> x / m / k >= 1.0
  {
    var y := x / m;
    var z := y / k;
    assert y * m == x && z * k == y;
    assert z * (m * k) == z * k * m;
    Compare(z, m * k);
  }

  lemma Compare(z: real, d: real)
    requires d > 0.0
    ensures z * d >= d <==> z >= 1.0
  {
    if z >= 1.0 { assert (z - 1.0) * d >= 0.0; } else { assert (1.0 - z) * d > 0.0; }
  }

  /** How far two hours are apart when one of them is moved by whole days. */
  function DaysApart(a: real, b: real, days: int): real { AbsReal(a - b - 24.0 * days as real) }

  /** The distance on the clock is the least distance over all ways of turning it by whole days. */
  lemma HourDistanceLeast(a: real, b: real)
    ensures exists days: int :: HourDistance(a, b) == DaysApart(a, b, days)
    ensures forall days: int :: HourDistance(a, b) <= DaysApart(a, b, days)
  {
    var x := AbsReal(a - b);
    var k := (x / 24.0).Floor;
    assert x / 24.0 - 1.0 < k as real <= x / 24.0;
    assert 0.0 <= x - 24.0 * k as real < 24.0;
    var sign := if a - b < 0.0 then -1 else 1;
    var turned, next := sign * k, sign * (k + 1);
    assert DaysApart(a, b, turned) == x - 24.0 * k as real;
    assert DaysApart(a, b, next) == 24.0 - (x - 24.0 * k as real);
    forall days: int ensures HourDistance(a, b) <= DaysApart(a, b, days) {
      var other := sign * days;
      assert DaysApart(a, b, days) == AbsReal(x - 24.0 * other as real);
      assert other <= k || other >= k + 1;
    }
  }

  /** A new timing regime: both hours known and at least the setting apart, in full at twelve hours. */
  lemma TimingExact(c: Context, o: Options)
    ensures TimingSignal(c, o) ==
      if c.baseHour.Some? && c.recentHour.Some?
         && HourDistance(c.recentHour.value, c.baseHour.value) >= o.timingRegimeShiftHours
      then [Signal(NEW_TIMING_REGIME, HourDistance(c.recentHour.value, c.baseHour.value) / 12.0)] else []
  {
    hide HourDistance;
    if c.baseHour.Some? && c.recentHour.Some? { HourDistanceRange(c.baseHour.value, c.recentHour.value); }
  }

  /** A sudden expansion: the cluster grew to at least the setting times its size, in full at four times that. */
  lemma ExpansionExact(c: Context, o: Options, before: nat, after: nat)
    requires ValidOptions(o) && c.sizes == Some((before, after))
    ensures
      var signals, k := ExpansionSignal(c, o), o.clusterExpansionMultiple;
      if before == 0 || after as real < before as real * k then signals == []
      else
        && |signals| == 1 && signals[0].name == SUDDEN_CLUSTER_EXPANSION
        && (after as real >= before as real * (k * 4.0) ==> signals[0].magnitude == 1.0)
        && (after as real < before as real * (k * 4.0) ==>
              signals[0].magnitude * (before as real * (k * 4.0)) == after as real)
  {
    var k := o.clusterExpansionMultiple;
    if before > 0 {
      TwiceDivided(after as real, before as real, k);
      TwiceDivided(after as real, before as real, k * 4.0);
      var multiple := after as real / before as real;
      assert multiple / k * k == multiple;
      Compare(multiple / k, k);
    }
  }

  /** A new protocol category is a novelty only for an actor whose baseline has some category. */
  lemma ProtocolExact(baseline: seq<Event>, recent: seq<Event>)
    ensures ProtocolSignal(baseline, recent) != [] <==>
      && (exists known :: known in Protocols(baseline))
      && exists novel :: novel in Protocols(recent) && novel !in Protocols(baseline)
  {
    hide Protocols;
    NoveltyExact(NEW_PROTOCOL_CATEGORY, Protocols(baseline), Protocols(recent));
  }

  /** The new ones as a share of all recent ones. */
  lemma NoveltyMagnitude(name: SignalName, known: set<string>, recent: set<string>)
    requires !(recent <= known)
    ensures |Novelty(name, known, recent)| == 1 && Novelty(name, known, recent)[0].name == name
    ensures Novelty(name, known, recent)[0].magnitude * |recent| as real == |recent - known| as real
  {
    assert recent == (recent - known) + (recent * known);
    assert |recent| == |recent - known| + |recent * known|;
    var part, whole := |recent - known| as real, |recent| as real;
    assert recent - known != {};
    PartOfWhole(part, whole);
  }

  lemma PartOfWhole(part: real, whole: real)
    requires part <= whole && whole > 0.0
    ensures part / whole * whole == part && part / whole <= 1.0
  {
    var x := part / whole;
    assert x * whole == part;
    SameSign(1.0 - x, whole);
    assert (1.0 - x) * whole == whole - part;
  }

  lemma SameSign(y: real, d: real)
    requires d > 0.0
    ensures y * d >= 0.0 <==> y >= 0.0
  {
    if y < 0.0 { assert (-y) * d > 0.0; }
  }

  /** What is reported under a name. */
  ghost function PartOf(name: SignalName, baseline: seq<Event>, recent: seq<Event>, c: Context, o: Options): seq<Signal>
    requires ValidOptions(o)
  {
    match name
    case NEW_COUNTERPARTY => Novelty(NEW_COUNTERPARTY, Counterparties(baseline), Counterparties(recent))
    case UNUSUAL_AMOUNT => AmountSignal(baseline, recent, o)
    case NEW_PROTOCOL_CATEGORY => ProtocolSignal(baseline, recent)
    case NEW_TIMING_REGIME => TimingSignal(c, o)
    case BEHAVIOR_SEQUENCE_DEVIATION => Novelty(BEHAVIOR_SEQUENCE_DEVIATION, EventTypes(baseline), EventTypes(recent))
    case SUDDEN_CLUSTER_EXPANSION => ExpansionSignal(c, o)
  }

  lemma SignalsByName(baseline: seq<Event>, recent: seq<Event>, c: Context, o: Options)
    requires ValidOptions(o)
    ensures forall s :: s in Signals(baseline, recent, c, o) <==> s in PartOf(s.name, baseline, recent, c, o)
  {
    hide Counterparties, EventTypes, Protocols, HourDistance, Share, Readable, MedianBigInt, Largest;
    forall s ensures s in Signals(baseline, recent, c, o) <==> s in PartOf(s.name, baseline, recent, c, o) {
      var a := Novelty(NEW_COUNTERPARTY, Counterparties(baseline), Counterparties(recent));
      var b := ProtocolSignal(baseline, recent);
      var d := Novelty(BEHAVIOR_SEQUENCE_DEVIATION, EventTypes(baseline), EventTypes(recent));
      assert s in Signals(baseline, recent, c, o) <==>
          s in a || s in AmountSignal(baseline, recent, o) || s in b || s in TimingSignal(c, o)
          || s in d || s in ExpansionSignal(c, o);
      match s.name case NEW_COUNTERPARTY => case _ =>
    }
  }

  // ---- detecting drift ----

  method DetectDrift(baseline: seq<Event>, recent: seq<Event>, c: Context, o: Options) returns (r: DriftResult)
    requires ValidOptions(o)
    ensures r.hadBaseline <==> |baseline| >= o.minBaselineEvents && |recent| > 0
    ensures forall s :: s in r.signals <==> r.hadBaseline && s in PartOf(s.name, baseline, recent, c, o)
    ensures r.signals == if r.hadBaseline then Signals(baseline, recent, c, o) else []
    ensures IsPeak(r.signals, r.peakMagnitude) && 0.0 <= r.peakMagnitude <= 1.0
    ensures r.peakMagnitude == 0.0 <==> r.signals == []
    ensures Fires(r, UNUSUAL_AMOUNT) <==> r.hadBaseline && AmountSignal(baseline, recent, o) != []
  {
    hide Novelty, Counterparties, EventTypes, Protocols, HourDistance, Readable, MedianBigInt;
    if |baseline| < o.minBaselineEvents || recent == [] { return DriftResult([], 0.0, false); }
    var signals := Novelty(NEW_COUNTERPARTY, Counterparties(baseline), Counterparties(recent));
    var amounts := DetectUnusualAmount(baseline, recent, o);
    signals := signals + amounts;
    if Protocols(baseline) != {} {
      signals := signals + Novelty(NEW_PROTOCOL_CATEGORY, Protocols(baseline), Protocols(recent));
    }
    signals := signals + TimingSignal(c, o);
    signals := signals + Novelty(BEHAVIOR_SEQUENCE_DEVIATION, EventTypes(baseline), EventTypes(recent));
    signals := signals + ExpansionSignal(c, o);
    assert signals == Signals(baseline, recent, c, o);
    SignalsGraded(baseline, recent, c, o);
    SignalNames(baseline, recent, c, o);
    SignalsByName(baseline, recent, c, o);
    hide PartOf;
    var peak := Peak(signals);
    r := DriftResult(signals, peak, true);
    if AmountSignal(baseline, recent, o) != [] {
      var s := AmountSignal(baseline, recent, o)[0];
      assert s in AmountSignal(baseline, recent, o) && s in r.signals;
    }
  }

  method Peak(signals: seq<Signal>) returns (peak: real)
    requires Graded(signals)
    ensures IsPeak(signals, peak)
  {
    peak := 0.0;
    for k := 0 to |signals|
      invariant IsPeak(signals[..k], peak)
    {
      PrefixStep(signals, k);
      assert signals[k] in signals;
      peak := MaxReal(peak, signals[k].magnitude);
    }
    assert signals[..|signals|] == signals;
  }

  method DetectUnusualAmount(baseline: seq<Event>, recent: seq<Event>, o: Options) returns (signals: seq<Signal>)
    requires ValidOptions(o)
    ensures signals == AmountSignal(baseline, recent, o)
  {
    var baselineAmounts := ParseAmounts(baseline);
    var recentAmounts := ParseAmounts(recent);
    var median := MedianBigInt(baselineAmounts);
    signals := [];
    if median.Some? && median.value > 0 && |recentAmounts| > 0 {
      var largest := Largest(recentAmounts);
      if largest > median.value * WholeMultiple(o.unusualAmountMultiple) {
        var ratio := largest as real / median.value as real;
        signals := [Signal(UNUSUAL_AMOUNT, MinReal(1.0, ratio / (o.unusualAmountMultiple * 10.0)))];
      }
    }
  }

  /** A minority of outlying history cannot hide an unusual amount, nor make a usual one look unusual. */
  lemma UnusualAmountBreakdown(baseline: seq<Event>, recent: seq<Event>, o: Options, lo: int, hi: int)
    requires ValidOptions(o) && lo > 0 && Majority(Readable(baseline), Between(lo, hi))
    ensures SomeAbove(Readable(recent), hi * WholeMultiple(o.unusualAmountMultiple)) ==>
      AmountSignal(baseline, recent, o) != []
    ensures !SomeAbove(Readable(recent), lo * WholeMultiple(o.unusualAmountMultiple)) ==>
      AmountSignal(baseline, recent, o) == []
  {
    hide MedianBigInt, Readable, Majority;
    MedianBreakdown(Readable(baseline), lo, hi);
    var median, k := MedianBigInt(Readable(baseline)).value, WholeMultiple(o.unusualAmountMultiple);
    ScaledBounds(lo, median, hi, k);
    SomeAboveLargest(Readable(recent), hi * k);
    SomeAboveLargest(Readable(recent), lo * k);
  }

  lemma ScaledBounds(lo: int, m: int, hi: int, k: int)
    requires lo <= m <= hi && k >= 0 && lo > 0
    ensures 0 <= lo * k <= m * k <= hi * k
  {
  }

  ghost predicate SomeAbove(amounts: seq<int>, threshold: int) {
    exists a :: a in amounts && a > threshold
  }

  lemma SomeAboveLargest(amounts: seq<int>, threshold: int)
    requires threshold >= 0
    ensures SomeAbove(amounts, threshold) <==> amounts != [] && Largest(amounts) > threshold
  {
    if amounts != [] && Largest(amounts) > threshold { assert Largest(amounts) in amounts; }
  }

  /** An amount is unusual exactly when it exceeds the whole multiple of a positive median. */
  lemma UnusualAmountExact(baseline: seq<Event>, recent: seq<Event>, o: Options)
    requires ValidOptions(o)
    ensures AmountSignal(baseline, recent, o) != [] <==>
      var median := MedianBigInt(Readable(baseline));
      median.Some? && median.value > 0
      && SomeAbove(Readable(recent), median.value * WholeMultiple(o.unusualAmountMultiple))
  {
    hide MedianBigInt, Readable, SomeAbove;
    var median := MedianBigInt(Readable(baseline));
    if median.Some? && median.value > 0 {
      PositiveProduct(median.value, WholeMultiple(o.unusualAmountMultiple));
      SomeAboveLargest(Readable(recent), median.value * WholeMultiple(o.unusualAmountMultiple));
    }
  }
}
