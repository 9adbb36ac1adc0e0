/** Do these wallets share a funder: labelled and unlabelled funders scored apart (`features.ts`). */
module FundingCorrelation {
  import opened Common
  import opened CapabilityTypes
  import opened WindowSweep

  datatype Row = Row(eventType: string, counterparty: Option<string>, chain: string, atMs: real)

  datatype Funding = Funding(funder: string, chain: string, atMs: real)

  const MS_PER_HOUR: real := 3_600_000.0

  predicate Inbound(r: Row) {
    r.eventType == "transfer" && r.counterparty.Some? && r.counterparty.value != ""
  }

  function FundedBy(r: Row): Funding
    requires Inbound(r)
  {
    Funding(ToLower(r.counterparty.value), r.chain, r.atMs)
  }

  /** The first inbound transfer of least time. */
  function EarliestFunding(rows: seq<Row>): (f: Option<Funding>)
    ensures f.None? <==> forall r | r in rows :: !Inbound(r)
    ensures f.Some? ==> exists r :: r in rows && Inbound(r) && f.value == FundedBy(r)
    ensures f.Some? ==> forall r | r in rows && Inbound(r) :: f.value.atMs <= r.atMs
  {
    if rows == [] then None
    else
      var init, last := rows[..|rows| - 1], rows[|rows| - 1];
      assert rows == init + [last];
      var earlier := EarliestFunding(init);
      if Inbound(last) && (earlier.None? || last.atMs < earlier.value.atMs) then Some(FundedBy(last)) else earlier
  }

  method FindEarliestFunding(rows: seq<Row>) returns (best: Option<Funding>)
    ensures best == EarliestFunding(rows)
  {
    best := None;
    for k := 0 to |rows|
      invariant best == EarliestFunding(rows[..k])
    {
      assert rows[..k + 1][..k] == rows[..k];
      if Inbound(rows[k]) && (best.None? || rows[k].atMs < best.value.atMs) {
        best := Some(FundedBy(rows[k]));
      }
    }
    assert rows[..|rows|] == rows;
  }

  /** A transfer into the wallet from somebody named. */
  predicate PaidBy(r: Row, name: string) { r.eventType == "transfer" && name != "" && r.counterparty == Some(name) }

  ghost predicate FirstPaid(rows: seq<Row>, k: nat, name: string) {
    && k < |rows| && PaidBy(rows[k], name)
    && forall j, other | 0 <= j < |rows| && PaidBy(rows[j], other) ::
      rows[k].atMs < rows[j].atMs || (rows[k].atMs == rows[j].atMs && k <= j)
  }

  ghost predicate FundedFirst(rows: seq<Row>, f: Funding) {
    exists k: nat, name ::
      FirstPaid(rows, k, name) && f == Funding(ToLower(name), rows[k].chain, rows[k].atMs)
  }

  /** The first funding is the earliest payment, of several at one instant the first in the list. */
  lemma {:induction false} EarliestExact(rows: seq<Row>)
    ensures EarliestFunding(rows).None? ==> forall k, name | 0 <= k < |rows| :: !PaidBy(rows[k], name)
    ensures EarliestFunding(rows).Some? ==> FundedFirst(rows, EarliestFunding(rows).value)
  {
    hide ToLower, EarliestFunding, FundedFirst;
    if rows == [] {
      NoRows();
    } else {
      var init, last := rows[..|rows| - 1], rows[|rows| - 1];
      assert rows == init + [last];
      EarliestExact(init);
      EarliestAppend(init, last);
      var first := EarliestFunding(init);
      if Inbound(last) && (first.None? || last.atMs < first.value.atMs) {
        FirstComes(init, last);
      } else if first.Some? {
        FirstStays(init, last, first.value);
      }
    }
  }

  lemma FirstStays(init: seq<Row>, last: Row, f: Funding)
    requires FundedFirst(init, f) && (!Inbound(last) || last.atMs >= f.atMs)
    ensures FundedFirst(init + [last], f)
  {
    hide ToLower;
    var k: nat, name :| FirstPaid(init, k, name) && f == Funding(ToLower(name), init[k].chain, init[k].atMs);
    var rows := init + [last];
    forall j, other | 0 <= j < |rows| && PaidBy(rows[j], other)
      ensures rows[k].atMs < rows[j].atMs || (rows[k].atMs == rows[j].atMs && k <= j)
    {
      if j < |init| { assert PaidBy(init[j], other); }
    }
    assert FirstPaid(rows, k, name);
  }

  lemma FirstComes(init: seq<Row>, last: Row)
    requires Inbound(last) && forall r | r in init && Inbound(r) :: last.atMs < r.atMs
    ensures FundedFirst(init + [last], FundedBy(last))
  {
    hide ToLower;
    var rows := init + [last];
    forall j, other | 0 <= j < |rows| && PaidBy(rows[j], other)
      ensures last.atMs < rows[j].atMs || (last.atMs == rows[j].atMs && |init| <= j)
    {
      if j < |init| { assert init[j] in init && Inbound(init[j]); }
    }
    assert FirstPaid(rows, |init|, last.counterparty.value);
  }

  lemma EarliestAppend(rows: seq<Row>, last: Row)
    ensures EarliestFunding(rows + [last]) ==
      if Inbound(last) && (EarliestFunding(rows).None? || last.atMs < EarliestFunding(rows).value.atMs)
      then Some(FundedBy(last)) else EarliestFunding(rows)
  {
    assert (rows + [last])[..|rows|] == rows;
  }

  /** The earlier of two fundings; of two at one instant, the first. */
  function Sooner(a: Option<Funding>, b: Option<Funding>): Option<Funding> {
    if b.Some? && (a.None? || b.value.atMs < a.value.atMs) then b else a
  }

  function FundingOf(r: Row): Option<Funding> { if Inbound(r) then Some(FundedBy(r)) else None }

  lemma {:induction false} EarliestConcat(xs: seq<Row>, ys: seq<Row>)
    ensures EarliestFunding(xs + ys) == Sooner(EarliestFunding(xs), EarliestFunding(ys))
  {
    hide EarliestFunding;
    if ys == [] {
      assert xs + ys == xs;
      NoRows();
    } else {
      var init, last := ys[..|ys| - 1], ys[|ys| - 1];
      assert ys == init + [last] && xs + ys == (xs + init) + [last];
      EarliestAppend(xs + init, last);
      EarliestAppend(init, last);
      EarliestConcat(xs, init);
    }
  }

  lemma NoRows()
    ensures EarliestFunding([]) == None
  {
  }

  lemma EarliestBetween(before: seq<Row>, r: Row, after: seq<Row>)
    ensures EarliestFunding(before + [r] + after) ==
      Sooner(Sooner(EarliestFunding(before), FundingOf(r)), EarliestFunding(after))
  {
    hide EarliestFunding;
    EarliestConcat(before + [r], after);
    EarliestAppend(before, r);
  }

  /**
   * One more row leaves a wallet's funding alone exactly when it is no inbound transfer, or comes later than
   * the first one, or at the same instant after it in the list, or names the same funder, chain and instant.
   */
  lemma ExtraRowExact(before: seq<Row>, r: Row, after: seq<Row>)
    ensures
      var first, earlier := EarliestFunding(before + after), EarliestFunding(before);
      EarliestFunding(before + [r] + after) == first <==>
        || !Inbound(r)
        || (first.Some? && (r.atMs > first.value.atMs || (first == earlier && r.atMs == first.value.atMs)
                            || FundedBy(r) == first.value))
  {
    hide EarliestFunding;
    EarliestBetween(before, r, after);
    EarliestConcat(before, after);
  }

  /** A transfer later than the first one changes nothing, wherever it stands in the list. */
  lemma LaterTransferIgnored(before: seq<Row>, r: Row, after: seq<Row>)
    requires EarliestFunding(before + after).Some?
    requires r.atMs > EarliestFunding(before + after).value.atMs
    ensures EarliestFunding(before + [r] + after) == EarliestFunding(before + after)
  {
    hide EarliestFunding;
    ExtraRowExact(before, r, after);
  }

  // ---- grouping by funder ----

  type Firsts = seq<Option<Funding>>

  predicate By(f: Option<Funding>, funder: string) { f.Some? && f.value.funder == funder }

  function TimesOf(firsts: Firsts, funder: string): (times: seq<real>)
    ensures |times| <= |firsts|
  {
    if firsts == [] then []
    else
      var init, last := firsts[..|firsts| - 1], firsts[|firsts| - 1];
      if By(last, funder) then TimesOf(init, funder) + [last.value.atMs] else TimesOf(init, funder)
  }

  function ChainsOf(firsts: Firsts, funder: string): set<string> {
    set f | f in firsts && By(f, funder) :: f.value.chain
  }

  function Funders(firsts: Firsts): set<string> {
    set f | f in firsts && f.Some? :: f.value.funder
  }

  function KnownFunderKey(chain: string, address: string): string { ToLower(chain) + "|" + ToLower(address) }

  /** Labelled on any chain the funder was seen on. */
  predicate Labelled(firsts: Firsts, funder: string, known: set<string>) {
    exists chain :: chain in ChainsOf(firsts, funder) && KnownFunderKey(chain, funder) in known
  }

  datatype Options = Options(windowHours: real, multiplier: real, known: set<string>)

  /** A group of one is not co-funding, hence the ones taken off. */
  function Scale(count: nat, total: nat): real {
    if total > 1 then MaxReal(0.0, (count - 1) as real / (total - 1) as real) else 0.0
  }

  lemma ScaleRange(count: nat, total: nat)
    requires count <= total
    ensures 0.0 <= Scale(count, total) <= 1.0
    ensures Scale(count, total) == 1.0 <==> total > 1 && count == total
  {
    if total > 1 { Ratio((count - 1) as real, (total - 1) as real); }
  }

  lemma Ratio(n: real, d: real)
    requires n <= d && d > 0.0
    ensures n / d <= 1.0
    ensures n / d == 1.0 <==> n == d
    ensures n < 0.0 ==> n / d < 0.0
  {
    assert n / d * d == n;
  }

  function GroupScore(firsts: Firsts, funder: string, opts: Options): real {
    Scale(FullestWindow(TimesOf(firsts, funder), opts.windowHours * MS_PER_HOUR), |firsts|)
  }

  function FunderScore(firsts: Firsts, funder: string, opts: Options): real {
    if Labelled(firsts, funder, opts.known) then GroupScore(firsts, funder, opts) * opts.multiplier
    else GroupScore(firsts, funder, opts)
  }

  function Clamp(x: real): real { MinReal(1.0, MaxReal(0.0, x)) }

  /** `value` is the greatest of the clamped funder scores; 0 when nobody was funded. */
  ghost predicate IsFundingCorrelation(firsts: Firsts, opts: Options, value: real) {
    && (forall f | f in Funders(firsts) :: Clamp(FunderScore(firsts, f, opts)) <= value)
    && (if Funders(firsts) == {} then value == 0.0
        else exists f :: f in Funders(firsts) && value == Clamp(FunderScore(firsts, f, opts)))
  }

  function FirstsOf(wallets: seq<seq<Row>>): (firsts: Firsts)
    ensures |firsts| == |wallets|
  {
    seq(|wallets|, i requires 0 <= i < |wallets| => EarliestFunding(wallets[i]))
  }

  // ---- properties ----

  lemma GroupScoreRange(firsts: Firsts, funder: string, opts: Options)
    ensures 0.0 <= GroupScore(firsts, funder, opts) <= 1.0
  {
    ScaleRange(FullestWindow(TimesOf(firsts, funder), opts.windowHours * MS_PER_HOUR), |firsts|);
  }

  /** The value is determined by the evidence and lies between 0 and 1. */
  lemma CorrelationDetermined(firsts: Firsts, opts: Options, v: real, w: real)
    requires IsFundingCorrelation(firsts, opts, v) && IsFundingCorrelation(firsts, opts, w)
    ensures v == w && 0.0 <= v <= 1.0
  {
  }

  /** Vouching for more funders never raises the value. */
  lemma LabelsLower(firsts: Firsts, opts: Options, more: set<string>, v: real, w: real)
    requires 0.0 <= opts.multiplier <= 1.0 && opts.known <= more
    requires IsFundingCorrelation(firsts, opts, v)
    requires IsFundingCorrelation(firsts, opts.(known := more), w)
    ensures w <= v
  {
    var after := opts.(known := more);
    if Funders(firsts) != {} {
      var f :| f in Funders(firsts) && w == Clamp(FunderScore(firsts, f, after));
      LabelLowersScore(firsts, opts, more, f);
      assert Clamp(FunderScore(firsts, f, opts)) <= v;
    }
  }

  lemma LabelsGrow(firsts: Firsts, f: string, known: set<string>, more: set<string>)
    requires known <= more
    ensures Labelled(firsts, f, known) ==> Labelled(firsts, f, more)
  {
  }

  lemma LabelLowersScore(firsts: Firsts, opts: Options, more: set<string>, f: string)
    requires 0.0 <= opts.multiplier <= 1.0 && opts.known <= more
    ensures FunderScore(firsts, f, opts.(known := more)) <= FunderScore(firsts, f, opts)
  {
    hide Labelled, Scale, FullestWindow, TimesOf;
    GroupScoreRange(firsts, f, opts);
    LabelsGrow(firsts, f, opts.known, more);
    assert GroupScore(firsts, f, opts.(known := more)) == GroupScore(firsts, f, opts);
    Discount(GroupScore(firsts, f, opts), opts.multiplier);
  }

  lemma StrictDiscount(x: real, m: real)
    requires 0.0 <= x <= 1.0 && 0.0 <= m < 1.0
    ensures 0.0 <= x * m < 1.0
  {
    if x > 0.0 { assert x * (1.0 - m) > 0.0; }
  }

  lemma Discount(x: real, m: real)
    requires 0.0 <= x && 0.0 <= m <= 1.0
    ensures x * m <= x
  {
    assert x * (1.0 - m) >= 0.0;
  }

  /** Every funder nobody has vouched for counts in full, whatever else the wallets touched. */
  lemma UnlabelledCountsInFull(firsts: Firsts, opts: Options, f: string, v: real)
    requires IsFundingCorrelation(firsts, opts, v)
    requires f in Funders(firsts) && !Labelled(firsts, f, opts.known)
    ensures v >= GroupScore(firsts, f, opts)
  {
    GroupScoreRange(firsts, f, opts);
    assert Clamp(FunderScore(firsts, f, opts)) <= v;
  }

  /** With a discount in force, full marks mean one unvouched funder reached every wallet in one window. */
  lemma FullMarks(firsts: Firsts, opts: Options, v: real)
    requires IsFundingCorrelation(firsts, opts, v) && 0.0 <= opts.multiplier < 1.0
    ensures v == 1.0 <==>
      |firsts| > 1 && exists f ::
        f in Funders(firsts) && !Labelled(firsts, f, opts.known)
        && FullestWindow(TimesOf(firsts, f), opts.windowHours * MS_PER_HOUR) == |firsts|
  {
    forall f | f in Funders(firsts)
      ensures Clamp(FunderScore(firsts, f, opts)) == 1.0 <==>
        |firsts| > 1 && !Labelled(firsts, f, opts.known)
        && FullestWindow(TimesOf(firsts, f), opts.windowHours * MS_PER_HOUR) == |firsts|
    {
      FullScore(firsts, opts, f);
    }
    CorrelationDetermined(firsts, opts, v, v);
  }

  lemma FullScore(firsts: Firsts, opts: Options, f: string)
    requires 0.0 <= opts.multiplier < 1.0
    ensures Clamp(FunderScore(firsts, f, opts)) == 1.0 <==>
      |firsts| > 1 && !Labelled(firsts, f, opts.known)
      && FullestWindow(TimesOf(firsts, f), opts.windowHours * MS_PER_HOUR) == |firsts|
  {
    hide FullestWindow, TimesOf, Labelled, Scale;
    var count := FullestWindow(TimesOf(firsts, f), opts.windowHours * MS_PER_HOUR);
    ScaleRange(count, |firsts|);
    var x := GroupScore(firsts, f, opts);
    assert x == Scale(count, |firsts|);
    if Labelled(firsts, f, opts.known) {
      StrictDiscount(x, opts.multiplier);
      var y := x * opts.multiplier;
      assert FunderScore(firsts, f, opts) == y && Clamp(y) < 1.0;
    } else {
      assert FunderScore(firsts, f, opts) == x && Clamp(x) == x;
    }
  }

  /** Adding later transfers to any one wallet leaves the value alone. */
  lemma LaterTransfersIgnored(
    wallets: seq<seq<Row>>, w: nat, before: seq<Row>, r: Row, after: seq<Row>)
    requires w < |wallets| && wallets[w] == before + after
    requires EarliestFunding(wallets[w]).Some? && r.atMs > EarliestFunding(wallets[w]).value.atMs
    ensures FirstsOf(wallets[w := before + [r] + after]) == FirstsOf(wallets)
  {
    LaterTransferIgnored(before, r, after);
  }

  /** The evidence the value is computed from stays the same exactly when that wallet's first funding does. */
  lemma ExtraRowInSet(wallets: seq<seq<Row>>, w: nat, rows: seq<Row>)
    requires w < |wallets|
    ensures FirstsOf(wallets[w := rows]) == FirstsOf(wallets) <==> EarliestFunding(rows) == EarliestFunding(wallets[w])
  {
    hide EarliestFunding;
    assert FirstsOf(wallets[w := rows])[w] == EarliestFunding(rows);
    assert FirstsOf(wallets)[w] == EarliestFunding(wallets[w]);
  }

  lemma {:induction false} AllBy(firsts: Firsts, funder: string)
    requires |TimesOf(firsts, funder)| == |firsts|
    ensures forall i | 0 <= i < |firsts| :: By(firsts[i], funder)
  {
    if firsts != [] { AllBy(firsts[..|firsts| - 1], funder); }
  }

  /** With full marks one unvouched funder came first for every wallet. */
  lemma FullMarksFunder(firsts: Firsts, opts: Options) returns (funder: string)
    requires IsFundingCorrelation(firsts, opts, 1.0) && 0.0 <= opts.multiplier < 1.0
    ensures !Labelled(firsts, funder, opts.known) && forall i | 0 <= i < |firsts| :: By(firsts[i], funder)
  {
    hide IsFundingCorrelation, FullestWindow, TimesOf, Labelled;
    FullMarks(firsts, opts, 1.0);
    funder :|
      funder in Funders(firsts) && !Labelled(firsts, funder, opts.known)
      && FullestWindow(TimesOf(firsts, funder), opts.windowHours * MS_PER_HOUR) == |firsts|;
    AllBy(firsts, funder);
  }

  predicate Vouched(r: Row, opts: Options) {
    Inbound(r) && KnownFunderKey(r.chain, FundedBy(r).funder) in opts.known
  }

  /**
   * A set of wallets with full marks, one of which gets one more transfer from a labelled funder: the marks
   * stay full exactly when that transfer comes after the wallet's first one, in time or, at the same instant,
   * in the list.
   */
  lemma ExchangeTransferExact(
    wallets: seq<seq<Row>>, w: nat, before: seq<Row>, r: Row, after: seq<Row>, opts: Options, value: real)
    requires w < |wallets| && wallets[w] == before + after && Vouched(r, opts)
    requires 0.0 <= opts.multiplier < 1.0 && IsFundingCorrelation(FirstsOf(wallets), opts, 1.0)
    requires IsFundingCorrelation(FirstsOf(wallets[w := before + [r] + after]), opts, value)
    ensures EarliestFunding(before + after).Some?
    ensures
      var first := EarliestFunding(before + after);
      value == 1.0 <==>
        r.atMs > first.value.atMs || (r.atMs == first.value.atMs && first == EarliestFunding(before))
  {
    hide EarliestFunding, IsFundingCorrelation, Labelled, KnownFunderKey;
    var rows := before + [r] + after;
    var firsts, next := FirstsOf(wallets), FirstsOf(wallets[w := rows]);
    var funder := FullMarksFunder(firsts, opts);
    assert By(firsts[w], funder) && firsts[w] == EarliestFunding(before + after);
    NotFromVouched(firsts, w, r, opts, funder);
    ExtraRowExact(before, r, after);
    EarliestBetween(before, r, after);
    EarliestConcat(before, after);
    ExtraRowInSet(wallets, w, rows);
    if value == 1.0 && next != firsts {
      var other := FullMarksFunder(next, opts);
      assert By(next[w], other) && next[w] == Some(FundedBy(r));
      NotFromVouched(next, w, r, opts, other);
    }
    if next == firsts { CorrelationDetermined(firsts, opts, 1.0, value); }
  }

  /** A funder nobody vouched for is not the sender of a vouched transfer that came first for a wallet. */
  lemma NotFromVouched(firsts: Firsts, w: nat, r: Row, opts: Options, funder: string)
    requires w < |firsts| && By(firsts[w], funder) && !Labelled(firsts, funder, opts.known) && Vouched(r, opts)
    ensures firsts[w] != Some(FundedBy(r))
  {
    assert firsts[w] in firsts && firsts[w].value.chain in ChainsOf(firsts, funder);
  }

  // Two wallets funded by one private wallet at one instant; the exchange is a labelled funder.

  const PRIVATE: Row := Row("transfer", Some("private"), "base", 10.0)
  const EXCHANGE: Row := Row("transfer", Some("exchange"), "base", 5.0)

  function RingOptions(multiplier: real): Options { Options(1.0, multiplier, {"base|exchange"}) }

  lemma LowerCaseNames()
    ensures ToLower("private") == "private" && ToLower("exchange") == "exchange" && ToLower("base") == "base"
    ensures KnownFunderKey("base", "exchange") == "base|exchange"
    ensures KnownFunderKey("base", "private") != "base|exchange"
  {
    assert ToLower("private") == "private" && ToLower("exchange") == "exchange" && ToLower("base") == "base";
    assert "base" + "|" + "exchange" == "base|exchange";
  }

  lemma RowsFirst()
    ensures EarliestFunding([PRIVATE]) == Some(Funding("private", "base", 10.0))
    ensures EarliestFunding([EXCHANGE, PRIVATE]) == Some(Funding("exchange", "base", 5.0))
  {
    hide EarliestFunding;
    LowerCaseNames();
    NoRows();
    EarliestAppend([], PRIVATE);
    EarliestAppend([], EXCHANGE);
    EarliestAppend([EXCHANGE], PRIVATE);
    assert [] + [PRIVATE] == [PRIVATE] && [] + [EXCHANGE] == [EXCHANGE];
    assert [EXCHANGE] + [PRIVATE] == [EXCHANGE, PRIVATE];
  }

  lemma RingFirsts()
    ensures FirstsOf([[PRIVATE], [PRIVATE]])
         == [Some(Funding("private", "base", 10.0)), Some(Funding("private", "base", 10.0))]
    ensures FirstsOf([[EXCHANGE, PRIVATE], [PRIVATE]])
         == [Some(Funding("exchange", "base", 5.0)), Some(Funding("private", "base", 10.0))]
  {
    hide EarliestFunding;
    RowsFirst();
  }

  lemma PairWindow(t: real, width: real)
    requires width >= 0.0
    ensures FullestWindow([t, t], width) == 2 && FullestWindow([t], width) == 1
  {
    assert [t, t][1..] == [t] && [t][1..] == [];
    assert CountIn([t], t, t + width) == 1;
    assert Held([t, t], t, width) == 2;
  }

  lemma RingFullMarks(ring: Firsts, opts: Options)
    requires ring == [Some(Funding("private", "base", 10.0)), Some(Funding("private", "base", 10.0))]
    requires opts.windowHours == 1.0 && opts.known == {"base|exchange"}
    ensures FunderScore(ring, "private", opts) == 1.0
  {
    hide FullestWindow;
    LowerCaseNames();
    assert ring[..1] == [ring[0]] && ring[..1][..0] == [];
    assert TimesOf(ring[..1], "private") == [10.0] && TimesOf(ring, "private") == [10.0, 10.0];
    assert ChainsOf(ring, "private") == {"base"};
    PairWindow(10.0, MS_PER_HOUR);
  }

  lemma SplitScoresNothing(split: Firsts, opts: Options, funder: string)
    requires split == [Some(Funding("exchange", "base", 5.0)), Some(Funding("private", "base", 10.0))]
    requires opts.windowHours == 1.0 && (funder == "private" || funder == "exchange")
    ensures FunderScore(split, funder, opts) == 0.0
  {
    hide FullestWindow, Labelled;
    assert split[..1] == [split[0]] && split[..1][..0] == [];
    assert TimesOf(split[..1], funder) == (if funder == "exchange" then [5.0] else []);
    assert TimesOf(split, funder) == [if funder == "exchange" then 5.0 else 10.0];
    PairWindow(if funder == "exchange" then 5.0 else 10.0, MS_PER_HOUR);
    assert GroupScore(split, funder, opts) == 0.0;
  }

  /**
   * Routing one transfer through an exchange is documented not to launder the signal. An earlier one does: two
   * wallets funded by one private wallet have full marks, and none once one of them has such a transfer first.
   */
  lemma EarlierTransferLaunders(multiplier: real, v: real, w: real)
    requires 0.0 <= multiplier <= 1.0
    requires IsFundingCorrelation(FirstsOf([[PRIVATE], [PRIVATE]]), RingOptions(multiplier), v)
    requires IsFundingCorrelation(FirstsOf([[EXCHANGE, PRIVATE], [PRIVATE]]), RingOptions(multiplier), w)
    ensures v == 1.0 && w == 0.0
  {
    hide FirstsOf, FullestWindow;
    RingFirsts();
    var opts := RingOptions(multiplier);
    var ring, split := FirstsOf([[PRIVATE], [PRIVATE]]), FirstsOf([[EXCHANGE, PRIVATE], [PRIVATE]]);
    RingFullMarks(ring, opts);
    SplitScoresNothing(split, opts, "private");
    SplitScoresNothing(split, opts, "exchange");
    assert ring[0] in ring && split[0] in split && split[1] in split;
    assert Funders(ring) == {"private"} && Funders(split) == {"private", "exchange"};
  }

  // ---- the computation ----

  datatype Group = Group(times: seq<real>, chains: set<string>)

  ghost predicate Grouped(firsts: Firsts, order: seq<string>, groups: map<string, Group>) {
    && groups.Keys == Funders(firsts)
    && (forall f :: f in order <==> f in groups)
    && forall f | f in groups :: groups[f] == Group(TimesOf(firsts, f), ChainsOf(firsts, f))
  }

  lemma AppendedMembers(firsts: Firsts, last: Option<Funding>)
    ensures forall x :: x in firsts + [last] <==> x in firsts || x == last
  {
  }

  lemma FundersAppend(firsts: Firsts, last: Option<Funding>)
    ensures Funders(firsts + [last]) == Funders(firsts) + (if last.Some? then {last.value.funder} else {})
  {
    AppendedMembers(firsts, last);
  }

  lemma GroupAppend(firsts: Firsts, last: Option<Funding>, f: string)
    ensures ChainsOf(firsts + [last], f) == ChainsOf(firsts, f) + (if By(last, f) then {last.value.chain} else {})
    ensures TimesOf(firsts + [last], f) == TimesOf(firsts, f) + (if By(last, f) then [last.value.atMs] else [])
  {
    AppendedMembers(firsts, last);
    assert (firsts + [last])[..|firsts|] == firsts;
  }

  lemma GroupStep(firsts: Firsts, last: Option<Funding>, order: seq<string>, groups: map<string, Group>)
    requires Grouped(firsts, order, groups)
    ensures last.None? ==> Grouped(firsts + [last], order, groups)
    ensures last.Some? && last.value.funder in groups ==>
      var Funding(f, chain, at) := last.value;
      Grouped(firsts + [last], order, groups[f := Group(groups[f].times + [at], groups[f].chains + {chain})])
    ensures last.Some? && last.value.funder !in groups ==>
      var Funding(f, chain, at) := last.value;
      Grouped(firsts + [last], order + [f], groups[f := Group([at], {chain})])
  {
    hide Funders, TimesOf, ChainsOf;
    FundersAppend(firsts, last);
    forall f { GroupAppend(firsts, last, f); }
    if last.Some? && last.value.funder !in groups {
      NoGroup(firsts, last.value.funder);
    }
  }

  lemma {:induction false} NoGroup(firsts: Firsts, f: string)
    requires f !in Funders(firsts)
    ensures TimesOf(firsts, f) == [] && ChainsOf(firsts, f) == {}
  {
    if firsts != [] {
      var init, last := firsts[..|firsts| - 1], firsts[|firsts| - 1];
      assert firsts == init + [last] && last in firsts;
      assert f !in Funders(init) by {
        assert forall x | x in init :: x in firsts;
      }
      NoGroup(init, f);
    }
  }

  method GroupByFunder(firsts: Firsts) returns (order: seq<string>, groups: map<string, Group>)
    ensures Grouped(firsts, order, groups)
  {
    hide Grouped;
    order, groups := [], map[];
    assert Grouped([], order, groups) by { NothingGrouped(); }
    for k := 0 to |firsts|
      invariant Grouped(firsts[..k], order, groups)
    {
      GroupStep(firsts[..k], firsts[k], order, groups);
      PrefixStep(firsts, k);
      if firsts[k].Some? {
        var Funding(f, chain, at) := firsts[k].value;
        if f in groups {
          groups := groups[f := Group(groups[f].times + [at], groups[f].chains + {chain})];
        } else {
          order, groups := order + [f], groups[f := Group([at], {chain})];
        }
      }
    }
    assert firsts[..|firsts|] == firsts;
  }

  lemma NothingGrouped()
    ensures Grouped([], [], map[])
  {
  }

  /** `best` is the greatest score among those listed funders that are labelled, or that are not. */
  ghost predicate BestOf(firsts: Firsts, opts: Options, listed: seq<string>, labelled: bool, best: Option<real>) {
    && (forall f | f in listed && Labelled(firsts, f, opts.known) == labelled ::
          best.Some? && FunderScore(firsts, f, opts) <= best.value)
    && (best.Some? ==> exists f :: f in listed && FunderScore(firsts, f, opts) == best.value)
  }

  lemma BestStep(firsts: Firsts, opts: Options, listed: seq<string>, f: string, labelled: bool, best: Option<real>)
    requires BestOf(firsts, opts, listed, labelled, best)
    ensures
      var score := FunderScore(firsts, f, opts);
      var next := if Labelled(firsts, f, opts.known) == labelled && (best.None? || score > best.value)
                  then Some(score) else best;
      BestOf(firsts, opts, listed + [f], labelled, next)
  {
    hide FunderScore, Labelled;
    assert f in listed + [f];
    if best.Some? {
      var g :| g in listed && FunderScore(firsts, g, opts) == best.value;
      assert g in listed + [f];
    }
  }

  /** The better of the two sides is the greatest score of all. */
  lemma WinnerIsMaximum(
    firsts: Firsts, opts: Options, order: seq<string>, labelled: Option<real>, unlabelled: Option<real>)
    requires forall f :: f in order <==> f in Funders(firsts)
    requires BestOf(firsts, opts, order, true, labelled) && BestOf(firsts, opts, order, false, unlabelled)
    ensures IsFundingCorrelation(firsts, opts, Clamp(Winner(labelled, unlabelled)))
  {
    hide FunderScore, Labelled, Funders;
    var winner := Winner(labelled, unlabelled);
    forall f | f in Funders(firsts) ensures FunderScore(firsts, f, opts) <= winner {
      assert f in order && Labelled(firsts, f, opts.known) in {true, false};
    }
    if Funders(firsts) != {} {
      var any :| any in Funders(firsts);
      assert any in order;
      assert labelled.Some? || unlabelled.Some?;
    } else {
      assert forall f :: f !in order;
    }
  }

  /** Ties go to the unlabelled side. */
  function Winner(labelled: Option<real>, unlabelled: Option<real>): real {
    if labelled.Some? && (unlabelled.None? || labelled.value > unlabelled.value) then labelled.value
    else if unlabelled.Some? then unlabelled.value
    else 0.0
  }

  method FundingValue(wallets: seq<seq<Row>>, opts: Options) returns (value: real)
    ensures |wallets| < 2 ==> value == 0.0
    ensures |wallets| >= 2 ==> IsFundingCorrelation(FirstsOf(wallets), opts, value)
  {
    hide IsFundingCorrelation, FullestWindow, Labelled, EarliestFunding, Clamp;
    if |wallets| < 2 { return 0.0; }
    var firsts: Firsts := [];
    for k := 0 to |wallets|
      invariant |firsts| == k && forall i | 0 <= i < k :: firsts[i] == EarliestFunding(wallets[i])
    {
      var first := FindEarliestFunding(wallets[k]);
      firsts := firsts + [first];
    }
    assert firsts == FirstsOf(wallets);
    var order, groups := GroupByFunder(firsts);
    var labelled, unlabelled: Option<real> := None, None;
    assert BestOf(firsts, opts, [], true, None) && BestOf(firsts, opts, [], false, None);
    for k := 0 to |order|
      invariant BestOf(firsts, opts, order[..k], true, labelled)
      invariant BestOf(firsts, opts, order[..k], false, unlabelled)
    {
      var f := order[k];
      assert f in groups;
      BestStep(firsts, opts, order[..k], f, true, labelled);
      BestStep(firsts, opts, order[..k], f, false, unlabelled);
      PrefixStep(order, k);
      var known, score := ScoreGroup(firsts, f, groups[f], opts, |firsts|);
      if known {
        if labelled.None? || score > labelled.value { labelled := Some(score); }
      } else {
        if unlabelled.None? || score > unlabelled.value { unlabelled := Some(score); }
      }
    }
    assert order[..|order|] == order;
    WinnerIsMaximum(firsts, opts, order, labelled, unlabelled);
    value := Clamp(Winner(labelled, unlabelled));
  }

  method ScoreGroup(ghost firsts: Firsts, funder: string, group: Group, opts: Options, total: nat)
    returns (known: bool, score: real)
    requires group == Group(TimesOf(firsts, funder), ChainsOf(firsts, funder)) && total == |firsts|
    ensures known == Labelled(firsts, funder, opts.known)
    ensures score == FunderScore(firsts, funder, opts)
  {
    var count := LargestWindowCluster(group.times, opts.windowHours * MS_PER_HOUR);
    known := exists chain :: chain in group.chains && KnownFunderKey(chain, funder) in opts.known;
    score := Scale(count, total);
    if known { score := score * opts.multiplier; }
  }

  // ---- the value, spelled out ----

  /** The wallets that a funder reached first, in the window of so many hours that opens at an instant. */
  ghost function Reached(firsts: Firsts, funder: string, start: real, hours: real): set<nat> {
    set i: nat | i < |firsts| && firsts[i].Some? && firsts[i].value.funder == funder
                 && start <= firsts[i].value.atMs <= start + hours * 3_600_000.0
  }

  lemma {:induction false} ReachedCount(firsts: Firsts, funder: string, start: real, hours: real)
    ensures Held(TimesOf(firsts, funder), start, hours * MS_PER_HOUR) == |Reached(firsts, funder, start, hours)|
  {
    hide Held;
    if firsts == [] {
      assert Reached(firsts, funder, start, hours) == {};
      NoneHeld(start, hours * MS_PER_HOUR);
    } else {
      var n: nat := |firsts| - 1;
      var init, last := firsts[..n], firsts[n];
      ReachedCount(init, funder, start, hours);
      var before := Reached(init, funder, start, hours);
      var counts := By(last, funder) && start <= last.value.atMs <= start + hours * MS_PER_HOUR;
      forall i: nat ensures i in Reached(firsts, funder, start, hours) <==> i in before || (i == n && counts) {
        if i < n { assert firsts[i] == init[i]; }
      }
      assert Reached(firsts, funder, start, hours) == before + if counts then {n} else {};
      if By(last, funder) { HeldAppend(TimesOf(init, funder), last.value.atMs, start, hours * MS_PER_HOUR); }
    }
  }

  lemma NoneHeld(start: real, width: real)
    ensures Held([], start, width) == 0
  {
  }

  lemma HeldAppend(times: seq<real>, t: real, start: real, width: real)
    ensures Held(times + [t], start, width) == Held(times, start, width) + if start <= t <= start + width then 1 else 0
  {
    FilterAppend(times, [t], Within(start, start + width));
    assert Filter([t][1..], Within(start, start + width)) == [];
  }

  /** Somebody vouched for the funder on a chain it was seen on. */
  ghost predicate KnownSomewhere(firsts: Firsts, funder: string, known: set<string>) {
    exists i :: 0 <= i < |firsts| && firsts[i].Some? && firsts[i].value.funder == funder
                && ToLower(firsts[i].value.chain) + "|" + ToLower(funder) in known
  }

  lemma KnownIsLabelled(firsts: Firsts, funder: string, known: set<string>)
    ensures Labelled(firsts, funder, known) <==> KnownSomewhere(firsts, funder, known)
  {
    if Labelled(firsts, funder, known) {
      var chain :| chain in ChainsOf(firsts, funder) && KnownFunderKey(chain, funder) in known;
      var f :| f in firsts && By(f, funder) && f.value.chain == chain;
      var i :| 0 <= i < |firsts| && firsts[i] == f;
    }
    if i :| 0 <= i < |firsts| && firsts[i].Some? && firsts[i].value.funder == funder
            && ToLower(firsts[i].value.chain) + "|" + ToLower(funder) in known {
      assert firsts[i] in firsts && firsts[i].value.chain in ChainsOf(firsts, funder);
      assert KnownFunderKey(firsts[i].value.chain, funder) in known;
    }
  }

  function Factor(known: bool, opts: Options): real { if known then opts.multiplier else 1.0 }

  /** A funder's score, times the wallets but one: those reached in its fullest window but one, times its factor. */
  lemma ScoreTimesOthers(firsts: Firsts, funder: string, opts: Options)
    requires |firsts| >= 2 && 0.0 <= opts.multiplier <= 1.0 && funder in Funders(firsts) && opts.windowHours >= 0.0
    ensures
      var n := FullestWindow(TimesOf(firsts, funder), opts.windowHours * MS_PER_HOUR);
      && n >= 1
      && Clamp(FunderScore(firsts, funder, opts)) * (|firsts| - 1) as real
         == (n - 1) as real * Factor(KnownSomewhere(firsts, funder, opts.known), opts)
  {
    hide FullestWindow, Labelled, KnownSomewhere, TimesOf;
    KnownIsLabelled(firsts, funder, opts.known);
    var n := FullestWindow(TimesOf(firsts, funder), opts.windowHours * MS_PER_HOUR);
    FundedTimes(firsts, funder);
    AtLeastOne(TimesOf(firsts, funder), opts.windowHours * MS_PER_HOUR);
    ScaleRange(n, |firsts|);
    var d := (|firsts| - 1) as real;
    var x := (n - 1) as real / d;
    assert x * d == (n - 1) as real;
    assert GroupScore(firsts, funder, opts) == x;
    Discount(x, opts.multiplier);
    Discounted(x, d, opts.multiplier);
    assert FunderScore(firsts, funder, opts) == x * Factor(KnownSomewhere(firsts, funder, opts.known), opts);
  }

  lemma Discounted(x: real, d: real, m: real)
    requires x >= 0.0 && 0.0 <= m <= 1.0
    ensures 0.0 <= x * m <= x && x * m * d == x * d * m
  {
    assert x * (1.0 - m) >= 0.0;
  }

  lemma AtLeastOne(times: seq<real>, width: real)
    requires times != []
    ensures FullestWindow(times, width) >= 1
  {
  }

  lemma {:induction false} FundedTimes(firsts: Firsts, funder: string)
    requires funder in Funders(firsts)
    ensures TimesOf(firsts, funder) != []
  {
    var f :| f in firsts && f.Some? && f.value.funder == funder;
    var init, last := firsts[..|firsts| - 1], firsts[|firsts| - 1];
    assert firsts == init + [last];
    if last != f {
      assert f in init;
      FundedTimes(init, funder);
    }
  }

  /** What a funder reached in a window, but one, times its factor. */
  ghost function Due(firsts: Firsts, opts: Options, f: string, s: real): real {
    (|Reached(firsts, f, s, opts.windowHours)| - 1) as real * Factor(KnownSomewhere(firsts, f, opts.known), opts)
  }

  /**
   * The value, times the number of wallets but one: at least what any funder reached in any window, but one, times
   * that funder's factor; and, unless it is 0, exactly that for some funder and some window.
   */
  lemma ValueMeans(firsts: Firsts, opts: Options, v: real)
    requires IsFundingCorrelation(firsts, opts, v) && |firsts| >= 2
    requires 0.0 <= opts.multiplier <= 1.0 && opts.windowHours >= 0.0
    ensures forall f, s | Reached(firsts, f, s, opts.windowHours) != {} ::
      v * (|firsts| - 1) as real >= Due(firsts, opts, f, s)
    ensures v > 0.0 ==> exists f, s :: v * (|firsts| - 1) as real == Due(firsts, opts, f, s)
  {
    hide IsFundingCorrelation, Due, Reached;
    forall f, s | Reached(firsts, f, s, opts.windowHours) != {}
      ensures v * (|firsts| - 1) as real >= Due(firsts, opts, f, s)
    {
      ValueAtLeast(firsts, opts, v, f, s);
    }
    if v > 0.0 { var f, s := ValueAttained(firsts, opts, v); }
  }

  lemma ValueAtLeast(firsts: Firsts, opts: Options, v: real, f: string, s: real)
    requires IsFundingCorrelation(firsts, opts, v) && |firsts| >= 2
    requires 0.0 <= opts.multiplier <= 1.0 && opts.windowHours >= 0.0
    requires Reached(firsts, f, s, opts.windowHours) != {}
    ensures v * (|firsts| - 1) as real >= Due(firsts, opts, f, s)
  {
    hide FullestWindow, KnownSomewhere, TimesOf, Clamp, FunderScore, Held, Reached;
    var d, width := (|firsts| - 1) as real, opts.windowHours * MS_PER_HOUR;
    ReachedFunded(firsts, f, s, opts.windowHours);
    ScoreTimesOthers(firsts, f, opts);
    FullestWindowIsMaximum(TimesOf(firsts, f), width);
    ReachedCount(firsts, f, s, opts.windowHours);
    var n := FullestWindow(TimesOf(firsts, f), width);
    Combine(v, d, Clamp(FunderScore(firsts, f, opts)), (n - 1) as real,
            (|Reached(firsts, f, s, opts.windowHours)| - 1) as real,
            Factor(KnownSomewhere(firsts, f, opts.known), opts));
  }

  lemma ValueAttained(firsts: Firsts, opts: Options, v: real) returns (f: string, s: real)
    requires IsFundingCorrelation(firsts, opts, v) && |firsts| >= 2 && v > 0.0
    requires 0.0 <= opts.multiplier <= 1.0 && opts.windowHours >= 0.0
    ensures v * (|firsts| - 1) as real == Due(firsts, opts, f, s)
  {
    hide FullestWindow, KnownSomewhere, TimesOf, Clamp, FunderScore, Reached, Factor;
    f :| f in Funders(firsts) && v == Clamp(FunderScore(firsts, f, opts));
    ScoreTimesOthers(firsts, f, opts);
    s := FullestReached(firsts, f, opts);
  }

  lemma FullestReached(firsts: Firsts, f: string, opts: Options) returns (s: real)
    requires opts.windowHours >= 0.0 && f in Funders(firsts)
    ensures |Reached(firsts, f, s, opts.windowHours)|
         == FullestWindow(TimesOf(firsts, f), opts.windowHours * MS_PER_HOUR)
  {
    hide FullestWindow, TimesOf, Held, Reached, Funders;
    var width := opts.windowHours * MS_PER_HOUR;
    FundedTimes(firsts, f);
    FullestWindowIsMaximum(TimesOf(firsts, f), width);
    s :| s in TimesOf(firsts, f) && Held(TimesOf(firsts, f), s, width) == FullestWindow(TimesOf(firsts, f), width);
    ReachedCount(firsts, f, s, opts.windowHours);
  }

  lemma Combine(v: real, d: real, score: real, n: real, r: real, factor: real)
    requires d >= 0.0 && score <= v && score * d == n * factor && r <= n && factor >= 0.0
    ensures v * d >= r * factor
  {
    assert (v - score) * d >= 0.0 && (n - r) * factor >= 0.0;
  }

  lemma ReachedFunded(firsts: Firsts, funder: string, start: real, hours: real)
    requires Reached(firsts, funder, start, hours) != {}
    ensures funder in Funders(firsts)
  {
    var i :| i in Reached(firsts, funder, start, hours);
    assert firsts[i] in firsts;
  }
}
