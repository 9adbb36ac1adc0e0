/** Comparing stored capabilities with on-chain roles, and repairing by revoking only (`reconciliation.ts`). */
module Reconciliation {
  import opened Common
  import opened RuleEngine
  import opened EacRoles
  import opened AgentRoles
  import Bits

  /** An agent row; one actor may have several. Rows stand in the order the query returns them. */
  datatype Agent = Agent(actor: nat, name: Option<string>, revoked: bool, createdAt: int)

  /** The agent rows, the actions each actor has an ACTIVE capability for, and how names are read. */
  datatype Tables = Tables(rows: seq<Agent>, believed: nat -> seq<ActionType>, suffix: string, available: bool)

  datatype DriftKind = CHAIN_EXCESS | CHAIN_MISSING | UNREADABLE

  /** What is wrong with one action: the row and its actor, and the label it was read under. */
  datatype Drift = Drift(kind: DriftKind, agent: nat, actor: nat, ensLabel: Label, action: ActionType, urgent: bool)

  datatype Report = Report(checkedActions: nat, drift: seq<Drift>, unreadable: bool)

  type Chain = map<Label, Bitmap>

  const ENFORCEABLE_ACTIONS: seq<ActionType> := [CLAIM, TRADE, TRANSFER, BORROW, API_REQUEST, X402_PAYMENT]

  // ---- the label an actor is read under ----

  /** The label of a full name under the configured parent. */
  function LabelIn(name: Option<string>, suffix: string): Option<Label> {
    if name.None? || |name.value| <= |suffix| || name.value[|name.value| - |suffix|..] != suffix then None
    else Some(name.value[..|name.value| - |suffix|])
  }

  predicate NamedFor(row: Agent, actor: nat) { row.actor == actor && row.name.Some? }

  /** The newest named row of an actor among the first `n`, whatever its status. */
  function Newest(rows: seq<Agent>, actor: nat, n: nat): (r: Option<nat>)
    requires n <= |rows|
    ensures r.Some? ==> r.value < n && NamedFor(rows[r.value], actor)
    ensures forall k | 0 <= k < n && NamedFor(rows[k], actor) ::
      r.Some? && rows[k].createdAt <= rows[r.value].createdAt
  {
    if n == 0 then None
    else
      var older := Newest(rows, actor, n - 1);
      if NamedFor(rows[n - 1], actor) && (older.None? || rows[older.value].createdAt <= rows[n - 1].createdAt)
      then Some(n - 1) else older
  }

  function NewestOf(t: Tables, actor: nat): Option<nat> { Newest(t.rows, actor, |t.rows|) }

  function OwnLabel(t: Tables, r: nat): Option<Label>
    requires r < |t.rows|
  {
    LabelIn(t.rows[r].name, t.suffix)
  }

  /** The label every row of the actor is compared, and repaired, under: that of its newest named row. */
  function Target(t: Tables, actor: nat): Option<Label> {
    var newest := NewestOf(t, actor);
    if !t.available || newest.None? then None else OwnLabel(t, newest.value)
  }

  /** Names are unique in the table. */
  ghost predicate UniqueNames(rows: seq<Agent>) {
    forall i, j | 0 <= i < j < |rows| && rows[i].name.Some? :: rows[i].name != rows[j].name
  }

  lemma SameLabelSameRow(t: Tables, r: nat, q: nat)
    requires UniqueNames(t.rows) && r < |t.rows| && q < |t.rows|
    requires OwnLabel(t, r).Some? && OwnLabel(t, r) == OwnLabel(t, q)
    ensures r == q
  {
    var a, b := t.rows[r].name.value, t.rows[q].name.value;
    assert a == OwnLabel(t, r).value + t.suffix && b == OwnLabel(t, q).value + t.suffix;
  }

  /** An actor is read under a row's own label exactly when the row is the actor's newest named one. */
  lemma TargetIsOwn(t: Tables, r: nat, actor: nat)
    requires UniqueNames(t.rows) && r < |t.rows| && OwnLabel(t, r).Some?
    ensures Target(t, actor) == OwnLabel(t, r) <==> t.available && NewestOf(t, actor) == Some(r)
  {
    hide LabelIn;
    if Target(t, actor) == OwnLabel(t, r) { SameLabelSameRow(t, r, NewestOf(t, actor).value); }
  }

  // ---- the rows looked at ----

  /** The rows the query asks for: named, not revoked, and the given one if one is given. */
  predicate Picked(rows: seq<Agent>, only: Option<nat>, r: nat)
    requires r < |rows|
  {
    rows[r].name.Some? && !rows[r].revoked && (only.None? || only.value == r)
  }

  function Picks(rows: seq<Agent>, only: Option<nat>, n: nat): (ps: seq<nat>)
    requires n <= |rows|
    ensures forall r :: r in ps ==> r < n
  {
    if n == 0 then []
    else Picks(rows, only, n - 1) + (if Picked(rows, only, n - 1) then [n - 1] else [])
  }

  /** How many rows are picked before row `r`. */
  function Rank(rows: seq<Agent>, only: Option<nat>, r: nat): nat
    requires r <= |rows|
  {
    |Picks(rows, only, r)|
  }

  /** The rows looked at: those picked, no more than the limit. */
  function Chosen(rows: seq<Agent>, only: Option<nat>, limit: nat): (rs: seq<nat>)
    ensures forall k | 0 <= k < |rs| :: rs[k] < |rows|
  {
    var all := Picks(rows, only, |rows|);
    assert forall k | 0 <= k < |all| :: all[k] in all;
    all[..Min(|all|, limit)]
  }

  lemma {:induction false} PickAt(rows: seq<Agent>, only: Option<nat>, n: nat, i: nat)
    requires n <= |rows| && i < |Picks(rows, only, n)|
    ensures
      var r := Picks(rows, only, n)[i];
      r < n && Picked(rows, only, r) && Rank(rows, only, r) == i
  {
    if i < |Picks(rows, only, n - 1)| { PickAt(rows, only, n - 1, i); }
  }

  lemma {:induction false} PickedHasPlace(rows: seq<Agent>, only: Option<nat>, n: nat, r: nat)
    requires r < n <= |rows| && Picked(rows, only, r)
    ensures Rank(rows, only, r) < |Picks(rows, only, n)| && Picks(rows, only, n)[Rank(rows, only, r)] == r
  {
    if r < n - 1 { PickedHasPlace(rows, only, n - 1, r); }
  }

  /** A row is looked at exactly when it is picked and fewer than the limit come before it. */
  lemma ChosenExactly(rows: seq<Agent>, only: Option<nat>, limit: nat, r: nat)
    requires r < |rows|
    ensures r in Chosen(rows, only, limit) <==> Picked(rows, only, r) && Rank(rows, only, r) < limit
  {
    var all, chosen := Picks(rows, only, |rows|), Chosen(rows, only, limit);
    if r in chosen {
      var i :| 0 <= i < |chosen| && chosen[i] == r;
      PickAt(rows, only, |rows|, i);
    }
    if Picked(rows, only, r) && Rank(rows, only, r) < limit {
      PickedHasPlace(rows, only, |rows|, r);
      assert chosen[Rank(rows, only, r)] == r;
    }
  }

  function RolesAt(chain: Chain, name: Label): Bitmap { if name in chain then chain[name] else 0 }

  function Dedupe(xs: seq<ActionType>): (r: seq<ActionType>)
    ensures forall x :: x in r <==> x in xs
    ensures NoDuplicates(r)
  {
    if xs == [] then []
    else
      var init, last := Dedupe(xs[..|xs| - 1]), xs[|xs| - 1];
      assert xs == xs[..|xs| - 1] + [last];
      if last in init then init else init + [last]
  }

  /** What can be compared: the believed actions and the enforceable ones, where a role exists. */
  function Comparable(believed: seq<ActionType>): (r: seq<ActionType>)
    ensures forall a :: a in r <==> Supported(a) && (a in believed || a in ENFORCEABLE_ACTIONS)
  {
    Filter(Dedupe(believed + ENFORCEABLE_ACTIONS), Supported)
  }

  /** Whether the read of an action's role, for a row, is answered. */
  type Readable = (nat, ActionType) -> bool

  function DriftAt(chain: Chain, t: Tables, readable: Readable, r: nat, a: ActionType): Option<Drift>
    requires r < |t.rows| && Target(t, t.rows[r].actor).Some?
  {
    var actor := t.rows[r].actor;
    var name := Target(t, actor).value;
    var onChain, locally := HoldsAction(RolesAt(chain, name), a), a in t.believed(actor);
    if !readable(r, a) then Some(Drift(UNREADABLE, r, actor, name, a, false))
    else if onChain && !locally then Some(Drift(CHAIN_EXCESS, r, actor, name, a, true))
    else if !onChain && locally then Some(Drift(CHAIN_MISSING, r, actor, name, a, false))
    else None
  }

  /** What is reported of a pair: unread, on chain without belief, believed without being on chain, or nothing. */
  lemma DriftExact(chain: Chain, t: Tables, readable: Readable, r: nat, a: ActionType)
    requires r < |t.rows| && Target(t, t.rows[r].actor).Some?
    ensures
      var actor, drift := t.rows[r].actor, DriftAt(chain, t, readable, r, a);
      var held, believed := HoldsAction(RolesAt(chain, Target(t, actor).value), a), a in t.believed(actor);
      && (drift.None? <==> readable(r, a) && (held <==> believed))
      && (drift.Some? ==>
            && drift.value.agent == r && drift.value.actor == actor && drift.value.action == a
            && drift.value.ensLabel == Target(t, actor).value
            && (drift.value.kind == UNREADABLE <==> !readable(r, a))
            && (drift.value.kind == CHAIN_EXCESS <==> readable(r, a) && held && !believed)
            && (drift.value.kind == CHAIN_MISSING <==> readable(r, a) && !held && believed)
            && (drift.value.urgent <==> readable(r, a) && held && !believed))
  {
    hide HoldsAction, Target;
  }

  /** A label is what stands before the suffix, and is not empty. */
  lemma LabelExact(name: Option<string>, suffix: string, ens: Label)
    ensures LabelIn(name, suffix) == Some(ens) <==> name == Some(ens + suffix) && ens != ""
  {
    if LabelIn(name, suffix).Some? {
      var k := |name.value| - |suffix|;
      assert name.value == name.value[..k] + name.value[k..];
    }
    if name == Some(ens + suffix) && ens != "" {
      assert (ens + suffix)[|ens|..] == suffix && (ens + suffix)[..|ens|] == ens;
    }
  }

  function ComparedFor(t: Tables, r: nat): seq<ActionType>
    requires r < |t.rows|
  {
    if Target(t, t.rows[r].actor).None? then [] else Comparable(t.believed(t.rows[r].actor))
  }

  /** The pair is compared, once its row is looked at. */
  predicate Comparing(t: Tables, r: nat, a: ActionType) {
    r < |t.rows| && Target(t, t.rows[r].actor).Some? && a in ComparedFor(t, r)
  }

  /** The report on the chosen rows lists the drift of every compared pair, and nothing else. */
  ghost predicate Faithful(chain: Chain, t: Tables, chosen: seq<nat>, readable: Readable, drift: seq<Drift>) {
    forall d :: d in drift <==>
      d.agent in chosen && Comparing(t, d.agent, d.action)
      && DriftAt(chain, t, readable, d.agent, d.action) == Some(d)
  }

  method CheckAgent(chain: Chain, t: Tables, readable: Readable, r: nat)
    returns (drift: seq<Drift>, checked: nat, unreadable: nat)
    requires r < |t.rows| && Target(t, t.rows[r].actor).Some?
    ensures forall d :: d in drift <==>
      d.agent == r && Comparing(t, r, d.action) && DriftAt(chain, t, readable, r, d.action) == Some(d)
    ensures unreadable <= checked == |ComparedFor(t, r)|
    ensures unreadable == checked <==> forall a | a in ComparedFor(t, r) :: !readable(r, a)
  {
    hide HoldsAction, Comparable, Target;
    var comparable := ComparedFor(t, r);
    drift, checked, unreadable := [], 0, 0;
    for k := 0 to |comparable|
      invariant checked == k && unreadable <= k
      invariant unreadable == k <==> forall j | 0 <= j < k :: !readable(r, comparable[j])
      invariant forall d :: d in drift <==>
        exists j :: 0 <= j < k && d.agent == r && d.action == comparable[j]
          && DriftAt(chain, t, readable, r, comparable[j]) == Some(d)
    {
      var action := comparable[k];
      checked := checked + 1;
      var found := DriftAt(chain, t, readable, r, action);
      if !readable(r, action) { unreadable := unreadable + 1; }
      if found.Some? { drift := drift + [found.value]; }
    }
    forall d: Drift | d.agent == r && Comparing(t, r, d.action)
      && DriftAt(chain, t, readable, r, d.action) == Some(d)
      ensures d in drift
    {
      var j :| 0 <= j < |comparable| && comparable[j] == d.action;
    }
  }

  ghost predicate AllUnreadable(t: Tables, chosen: seq<nat>, readable: Readable) {
    forall r, a | r in chosen && Comparing(t, r, a) :: !readable(r, a)
  }

  /** How many pairs are compared on the chosen rows. */
  function PairsOn(t: Tables, chosen: seq<nat>): nat
    requires forall k | 0 <= k < |chosen| :: chosen[k] < |t.rows|
  {
    if chosen == [] then 0
    else PairsOn(t, chosen[..|chosen| - 1]) + |ComparedFor(t, chosen[|chosen| - 1])|
  }

  /** One more row: its drift is added, its pairs counted. */
  lemma RowChecked(
    chain: Chain, t: Tables, done: seq<nat>, r: nat, readable: Readable, drift: seq<Drift>, more: seq<Drift>)
    requires r < |t.rows| && Faithful(chain, t, done, readable, drift)
    requires Target(t, t.rows[r].actor).Some?
    requires forall d :: d in more <==>
      d.agent == r && Comparing(t, r, d.action) && DriftAt(chain, t, readable, r, d.action) == Some(d)
    ensures Faithful(chain, t, done + [r], readable, drift + more)
  {
    hide DriftAt, Comparing;
  }

  lemma RowSkipped(chain: Chain, t: Tables, done: seq<nat>, r: nat, readable: Readable, drift: seq<Drift>)
    requires r < |t.rows| && Target(t, t.rows[r].actor).None?
    requires Faithful(chain, t, done, readable, drift)
    ensures Faithful(chain, t, done + [r], readable, drift)
  {
    hide DriftAt, Target;
  }

  lemma RowCounted(t: Tables, done: seq<nat>, r: nat, readable: Readable)
    requires (forall k | 0 <= k < |done| :: done[k] < |t.rows|) && r < |t.rows|
    ensures PairsOn(t, done + [r]) == PairsOn(t, done) + |ComparedFor(t, r)|
    ensures AllUnreadable(t, done + [r], readable) <==>
      AllUnreadable(t, done, readable) && forall a | a in ComparedFor(t, r) :: !readable(r, a)
  {
    hide Target, Comparable;
    assert (done + [r])[..|done|] == done;
    assert forall a :: Comparing(t, r, a) <==> a in ComparedFor(t, r);
  }

  /** Row by row, action by action; read-only. */
  method ReconcileEnforcement(chain: Chain, t: Tables, only: Option<nat>, limit: nat, readable: Readable)
    returns (report: Report)
    ensures Faithful(chain, t, Chosen(t.rows, only, limit), readable, report.drift)
    ensures report.checkedActions == PairsOn(t, Chosen(t.rows, only, limit))
    ensures report.unreadable <==>
      report.checkedActions > 0 && AllUnreadable(t, Chosen(t.rows, only, limit), readable)
  {
    hide DriftAt, Comparable, Chosen, Target, Faithful, AllUnreadable, PairsOn, Comparing;
    var chosen := Chosen(t.rows, only, limit);
    var drift: seq<Drift>, checked, unread := [], 0, 0;
    NothingChecked(chain, t, readable);
    for i := 0 to |chosen|
      invariant unread <= checked == PairsOn(t, chosen[..i])
      invariant unread == checked <==> AllUnreadable(t, chosen[..i], readable)
      invariant Faithful(chain, t, chosen[..i], readable, drift)
    {
      var r := chosen[i];
      PrefixStep(chosen, i);
      RowCounted(t, chosen[..i], r, readable);
      if Target(t, t.rows[r].actor).Some? {
        var more, c, u := CheckAgent(chain, t, readable, r);
        RowChecked(chain, t, chosen[..i], r, readable, drift, more);
        drift, checked, unread := drift + more, checked + c, unread + u;
      } else {
        RowSkipped(chain, t, chosen[..i], r, readable, drift);
      }
    }
    assert chosen[..|chosen|] == chosen;
    report := Report(checked, drift, checked > 0 && unread == checked);
  }

  lemma NothingChecked(chain: Chain, t: Tables, readable: Readable)
    ensures Faithful(chain, t, [], readable, []) && PairsOn(t, []) == 0 && AllUnreadable(t, [], readable)
  {
  }

  // ---- what the report can and cannot show ----

  /** Authority on a row's own label that the chain grants and nobody believes in. */
  predicate PublicExcess(chain: Chain, t: Tables, r: nat, a: ActionType) {
    r < |t.rows| && OwnLabel(t, r).Some?
    && HoldsAction(RolesAt(chain, OwnLabel(t, r).value), a) && a !in t.believed(t.rows[r].actor)
  }

  /** What comparing a row of the actor says about excess on the label of row `r`. */
  lemma ExcessSeen(chain: Chain, t: Tables, readable: Readable, r: nat, a: ActionType, q: nat)
    requires UniqueNames(t.rows) && PublicExcess(chain, t, r, a) && q < |t.rows|
    ensures
      var d := Drift(CHAIN_EXCESS, q, t.rows[q].actor, OwnLabel(t, r).value, a, true);
      Comparing(t, q, a) && DriftAt(chain, t, readable, q, a) == Some(d) <==>
        && t.rows[q].actor == t.rows[r].actor && a in ENFORCEABLE_ACTIONS && readable(q, a)
        && t.available && NewestOf(t, t.rows[r].actor) == Some(r)
  {
    hide HasAllRoles, LabelIn, NewestOf, UniqueNames, Target, RoleIndex;
    TargetIsOwn(t, r, t.rows[q].actor);
    NewestIsTheirs(t, t.rows[q].actor);
  }

  /**
   * Excess on a row's own label is reported for that row exactly when the row is not revoked, asked for and
   * within the limit, the action is enforceable and could be read, and no named row of the actor is newer.
   */
  lemma ExcessReported(
    chain: Chain, t: Tables, only: Option<nat>, limit: nat, readable: Readable, drift: seq<Drift>,
    r: nat, a: ActionType)
    requires Faithful(chain, t, Chosen(t.rows, only, limit), readable, drift) && UniqueNames(t.rows)
    requires PublicExcess(chain, t, r, a)
    ensures Drift(CHAIN_EXCESS, r, t.rows[r].actor, OwnLabel(t, r).value, a, true) in drift <==>
      && !t.rows[r].revoked && (only.None? || only.value == r) && Rank(t.rows, only, r) < limit
      && a in ENFORCEABLE_ACTIONS && readable(r, a)
      && t.available && NewestOf(t, t.rows[r].actor) == Some(r)
  {
    hide HoldsAction, Chosen, NewestOf, UniqueNames, DriftAt, Comparing;
    ChosenExactly(t.rows, only, limit, r);
    ExcessSeen(chain, t, readable, r, a, r);
  }

  /** A row of the actor that is looked at, and for which the action could be read. */
  ghost predicate ReadFor(
    t: Tables, only: Option<nat>, limit: nat, readable: Readable, q: nat, actor: nat, a: ActionType)
  {
    && q < |t.rows| && t.rows[q].actor == actor
    && Picked(t.rows, only, q) && Rank(t.rows, only, q) < limit && readable(q, a)
  }

  ghost predicate ReportedAt(drift: seq<Drift>, name: Label, a: ActionType) {
    exists d :: d in drift && d.kind == CHAIN_EXCESS && d.ensLabel == name && d.action == a
  }

  /**
   * Excess on a label is reported for any row at all exactly when the row that carries it, revoked or not, is
   * its actor's newest named one, and some row of that actor, it or a sibling, is looked at and could be read.
   */
  lemma LabelExcessReported(
    chain: Chain, t: Tables, only: Option<nat>, limit: nat, readable: Readable, drift: seq<Drift>,
    r: nat, a: ActionType)
    requires Faithful(chain, t, Chosen(t.rows, only, limit), readable, drift) && UniqueNames(t.rows)
    requires PublicExcess(chain, t, r, a)
    ensures ReportedAt(drift, OwnLabel(t, r).value, a) <==>
      && a in ENFORCEABLE_ACTIONS && t.available && NewestOf(t, t.rows[r].actor) == Some(r)
      && exists q :: ReadFor(t, only, limit, readable, q, t.rows[r].actor, a)
  {
    hide PublicExcess, Chosen, NewestOf, UniqueNames, Picked, Rank, DriftAt, Comparing, OwnLabel;
    assert OwnLabel(t, r).Some? by { PublicHasLabel(chain, t, r, a); }
    var name, actor := OwnLabel(t, r).value, t.rows[r].actor;
    if ReportedAt(drift, name, a) {
      var d :| d in drift && d.kind == CHAIN_EXCESS && d.ensLabel == name && d.action == a;
      DriftShape(chain, t, readable, d.agent, a);
      ChosenExactly(t.rows, only, limit, d.agent);
      ExcessSeen(chain, t, readable, r, a, d.agent);
      assert ReadFor(t, only, limit, readable, d.agent, actor, a);
    }
    if q :| ReadFor(t, only, limit, readable, q, actor, a) {
      ChosenExactly(t.rows, only, limit, q);
      ExcessSeen(chain, t, readable, r, a, q);
      if a in ENFORCEABLE_ACTIONS && t.available && NewestOf(t, actor) == Some(r) {
        assert Drift(CHAIN_EXCESS, q, actor, name, a, true) in drift;
      }
    }
  }

  lemma PublicHasLabel(chain: Chain, t: Tables, r: nat, a: ActionType)
    requires PublicExcess(chain, t, r, a)
    ensures r < |t.rows| && OwnLabel(t, r).Some?
  {
  }

  lemma DriftShape(chain: Chain, t: Tables, readable: Readable, q: nat, a: ActionType)
    requires Comparing(t, q, a)
    ensures
      var d := DriftAt(chain, t, readable, q, a);
      d.Some? ==> d.value == Drift(d.value.kind, q, t.rows[q].actor, d.value.ensLabel, a, d.value.kind == CHAIN_EXCESS)
  {
    hide Target, HoldsAction;
  }

  lemma NewestIsTheirs(t: Tables, actor: nat)
    ensures
      var newest := NewestOf(t, actor);
      newest.Some? ==> newest.value < |t.rows| && t.rows[newest.value].actor == actor
  {
  }

  /** When every row was revoked the report is empty, whatever the chain still holds. */
  lemma RevokedRowsUnreported(
    chain: Chain, t: Tables, only: Option<nat>, limit: nat, readable: Readable, drift: seq<Drift>)
    requires Faithful(chain, t, Chosen(t.rows, only, limit), readable, drift)
    requires forall r | 0 <= r < |t.rows| :: t.rows[r].revoked
    ensures drift == []
  {
    hide Chosen, DriftAt, Comparable;
    forall d ensures d !in drift {
      if d in drift { ChosenExactly(t.rows, only, limit, d.agent); }
    }
    NoMembersEmpty(drift);
  }

  // Actor 0 and its agents alpha and beta, of whom nobody believes anything.

  const SUFFIX: string := ".xander.eth"

  const EVERYTHING: Readable := (r, a) => true

  function Alpha(revoked: bool): Agent { Agent(0, Some("alpha" + SUFFIX), revoked, 1) }

  function Beta(revoked: bool): Agent { Agent(0, Some("beta" + SUFFIX), revoked, 2) }

  function TablesOf(rows: seq<Agent>): Tables { Tables(rows, (actor: nat) => [], SUFFIX, true) }

  function Trader(name: Label): Chain { map[name := RoleOf(TRADE)] }

  lemma TraderTrades(name: Label, a: ActionType)
    ensures HoldsAction(RolesAt(Trader(name), name), a) <==> a == TRADE
  {
    if Supported(a) {
      HoldsIsBit(RoleOf(TRADE), a);
      RoleBitIs(RoleIndex(TRADE).value, Slot(a));
    }
  }

  lemma LabelsRead(revoked: bool)
    ensures LabelIn(Alpha(revoked).name, SUFFIX) == Some("alpha")
    ensures LabelIn(Beta(revoked).name, SUFFIX) == Some("beta")
  {
    assert ("alpha" + SUFFIX)[5..] == SUFFIX && ("alpha" + SUFFIX)[..5] == "alpha";
    assert ("beta" + SUFFIX)[4..] == SUFFIX && ("beta" + SUFFIX)[..4] == "beta";
  }

  /** A revoked agent whose trading role is still on chain: excess authority, and an empty report. */
  lemma RevokedExcessUnreported()
    ensures
      var chain, t := Trader("alpha"), TablesOf([Alpha(true)]);
      && PublicExcess(chain, t, 0, TRADE)
      && forall limit, readable, drift | Faithful(chain, t, Chosen(t.rows, None, limit), readable, drift) ::
          drift == []
  {
    hide Chosen, DriftAt, Comparable, LabelIn, HoldsAction;
    var chain, t := Trader("alpha"), TablesOf([Alpha(true)]);
    LabelsRead(true);
    TraderTrades("alpha", TRADE);
    forall limit: nat, readable, drift | Faithful(chain, t, Chosen(t.rows, None, limit), readable, drift)
      ensures drift == []
    {
      RevokedRowsUnreported(chain, t, None, limit, readable, drift);
    }
  }

  lemma BetaIsNewest(alphaRevoked: bool, betaRevoked: bool)
    ensures
      var t := TablesOf([Alpha(alphaRevoked), Beta(betaRevoked)]);
      && NewestOf(t, 0) == Some(1) && Target(t, 0) == Some("beta") && OwnLabel(t, 0) == Some("alpha")
      && OwnLabel(t, 1) == Some("beta") && UniqueNames(t.rows)
  {
    hide LabelIn;
    LabelsRead(alphaRevoked);
    LabelsRead(betaRevoked);
    var t := TablesOf([Alpha(alphaRevoked), Beta(betaRevoked)]);
    assert Newest(t.rows, 0, 0) == None && Newest(t.rows, 0, 1) == Some(0) && Newest(t.rows, 0, 2) == Some(1);
    assert |"alpha" + SUFFIX| != |"beta" + SUFFIX|;
  }

  /** Two agents in service: the older one's trading role is excess, and a report that reads everything is empty. */
  lemma OlderSiblingUnread()
    ensures
      var chain, t := Trader("alpha"), TablesOf([Alpha(false), Beta(false)]);
      && PublicExcess(chain, t, 0, TRADE)
      && forall limit, drift | Faithful(chain, t, Chosen(t.rows, None, limit), EVERYTHING, drift) :: drift == []
  {
    hide Chosen, Comparable, LabelIn, HoldsAction, Target, NewestOf;
    var chain, t := Trader("alpha"), TablesOf([Alpha(false), Beta(false)]);
    BetaIsNewest(false, false);
    TraderTrades("alpha", TRADE);
    forall a ensures !HoldsAction(RolesAt(chain, "beta"), a) { NothingHeld(a); }
    forall limit: nat, drift | Faithful(chain, t, Chosen(t.rows, None, limit), EVERYTHING, drift)
      ensures drift == []
    {
      forall d ensures d !in drift {}
      NoMembersEmpty(drift);
    }
  }

  lemma NothingHeld(a: ActionType)
    ensures !HoldsAction(0, a)
  {
    if Supported(a) {
      HoldsIsBit(0, a);
      Bits.ZeroBit(Slot(a));
    }
  }

  /** The newer agent was revoked: its trading role is reported all the same, under the older agent's row. */
  lemma RevokedNewestRead()
    ensures
      var chain, t := Trader("beta"), TablesOf([Alpha(false), Beta(true)]);
      forall limit, drift | limit > 0 && Faithful(chain, t, Chosen(t.rows, None, limit), EVERYTHING, drift) ::
        Drift(CHAIN_EXCESS, 0, 0, "beta", TRADE, true) in drift
  {
    hide Chosen, Comparable, LabelIn, HoldsAction, Target, NewestOf;
    var chain, t := Trader("beta"), TablesOf([Alpha(false), Beta(true)]);
    BetaIsNewest(false, true);
    TraderTrades("beta", TRADE);
    forall limit: nat, drift | limit > 0 && Faithful(chain, t, Chosen(t.rows, None, limit), EVERYTHING, drift)
      ensures Drift(CHAIN_EXCESS, 0, 0, "beta", TRADE, true) in drift
    {
      ChosenExactly(t.rows, None, limit, 0);
    }
  }

  /** Voting has a role but is not on the list: unbelieved, it is never checked, whatever the chain says. */
  lemma VoteExcessUnreported(
    chain: Chain, t: Tables, chosen: seq<nat>, readable: Readable, drift: seq<Drift>, r: nat)
    requires Faithful(chain, t, chosen, readable, drift) && r < |t.rows| && VOTE !in t.believed(t.rows[r].actor)
    ensures Supported(VOTE) && forall d | d in drift && d.agent == r :: d.action != VOTE
  {
    hide DriftAt, Target;
  }

  // ---- repair ----

  /** How one revocation went: refused by the chain, or accepted with the role read back or not. */
  datatype Reply = Reverted | Landed(readBack: bool)

  datatype RepairOutcome = CONFIRMED | FAILED | UNKNOWN

  function Repaired(chain: Chain, t: Tables, d: Drift, reply: Reply): Chain {
    if Target(t, d.actor).None? || reply.Reverted? then chain
    else
      var name := Target(t, d.actor).value;
      chain[name := Written(RolesAt(chain, name), Revoke([d.action]))]
  }

  function OutcomeOf(after: Chain, t: Tables, d: Drift, reply: Reply): RepairOutcome {
    if Target(t, d.actor).None? then UNKNOWN
    else if !Supported(d.action) then CONFIRMED
    else if reply.Reverted? || !reply.readBack then UNKNOWN
    else if HoldsAction(RolesAt(after, Target(t, d.actor).value), d.action) then FAILED
    else CONFIRMED
  }

  /** A revocation that landed takes exactly its own role from exactly its own label; one that did not takes nothing. */
  lemma RepairedExact(chain: Chain, t: Tables, d: Drift, reply: Reply, name: Label, a: ActionType)
    ensures
      var after := Repaired(chain, t, d, reply);
      && (reply.Reverted? || Target(t, d.actor).None? ==> after == chain)
      && (HoldsAction(RolesAt(after, name), a) <==>
            HoldsAction(RolesAt(chain, name), a)
            && !(reply.Landed? && Target(t, d.actor) == Some(name) && a == d.action))
  {
    hide RolesOf, OtherRoles, HoldsAction, Target;
    RevokeList(RolesAt(chain, name), [d.action]);
    HeldMeans(RolesAt(Repaired(chain, t, d, reply), name), a);
    HeldMeans(RolesAt(chain, name), a);
    HeldSupported(RolesAt(chain, name), a);
    assert a in SupportedIn([d.action]) <==> a == d.action && Supported(a);
  }

  lemma HeldMeans(roles: Bitmap, a: ActionType)
    ensures a in Held(roles) <==> HoldsAction(roles, a)
  {
  }

  /**
   * How a repair is counted. Without a label nothing can be said; an action without a role needs nothing; otherwise it
   * is confirmed when it landed and could be read back, as the role is then gone.
   */
  lemma OutcomeExact(chain: Chain, t: Tables, d: Drift, reply: Reply)
    ensures OutcomeOf(Repaired(chain, t, d, reply), t, d, reply) ==
      if Target(t, d.actor).None? then UNKNOWN
      else if !Supported(d.action) || reply == Landed(true) then CONFIRMED
      else UNKNOWN
  {
    hide RolesOf, OtherRoles, HoldsAction, Target, Repaired;
    if Target(t, d.actor).Some? { RepairedExact(chain, t, d, reply, Target(t, d.actor).value, d.action); }
  }

  /** Whatever else happened to the chain, a role that is read back as still there is a failure. */
  lemma StillHeldFails(after: Chain, t: Tables, d: Drift, reply: Reply)
    ensures OutcomeOf(after, t, d, reply) == FAILED <==>
      && Target(t, d.actor).Some? && Supported(d.action) && reply == Landed(true)
      && HoldsAction(RolesAt(after, Target(t, d.actor).value), d.action)
  {
    hide HoldsAction, Target;
  }

  /** Nothing is gained anywhere, and bits that are not agent roles stay put. */
  ghost predicate Shrunk(before: Chain, after: Chain) {
    forall name :: ShrunkAt(before, after, name)
  }

  ghost predicate ShrunkAt(before: Chain, after: Chain, name: Label) {
    Held(RolesAt(after, name)) <= Held(RolesAt(before, name))
    && OtherRoles(RolesAt(after, name)) == OtherRoles(RolesAt(before, name))
  }

  lemma RepairShrinks(chain: Chain, t: Tables, d: Drift, reply: Reply)
    ensures Shrunk(chain, Repaired(chain, t, d, reply))
  {
    hide Held, OtherRoles, RolesOf;
    var after := Repaired(chain, t, d, reply);
    forall name ensures ShrunkAt(chain, after, name) {
      RevokeList(RolesAt(chain, name), [d.action]);
    }
  }

  lemma ShrunkTrans(a: Chain, b: Chain, c: Chain)
    requires Shrunk(a, b) && Shrunk(b, c)
    ensures Shrunk(a, c)
  {
    hide Held, OtherRoles;
    forall name ensures ShrunkAt(a, c, name) {
      assert ShrunkAt(a, b, name) && ShrunkAt(b, c, name);
    }
  }

  lemma ShrunkHolds(before: Chain, after: Chain, name: Label, a: ActionType)
    requires Shrunk(before, after) && HoldsAction(RolesAt(after, name), a)
    ensures HoldsAction(RolesAt(before, name), a)
  {
    hide HoldsAction, OtherRoles;
    assert ShrunkAt(before, after, name);
    assert a in Held(RolesAt(after, name));
  }

  predicate Excess(d: Drift) { d.kind == CHAIN_EXCESS }

  /** The excess drifts handled so far left their role off the chain. */
  ghost predicate Cleared(chain: Chain, t: Tables, done: seq<Drift>) {
    forall d | d in done && Target(t, d.actor).Some? ::
      !HoldsAction(RolesAt(chain, Target(t, d.actor).value), d.action)
  }

  lemma ClearedShrunk(before: Chain, after: Chain, t: Tables, done: seq<Drift>)
    requires Cleared(before, t, done) && Shrunk(before, after)
    ensures Cleared(after, t, done)
  {
    forall d | d in done && Target(t, d.actor).Some?
      ensures !HoldsAction(RolesAt(after, Target(t, d.actor).value), d.action)
    {
      var name := Target(t, d.actor).value;
      if HoldsAction(RolesAt(after, name), d.action) { ShrunkHolds(before, after, name, d.action); }
    }
  }

  /** Every excess has a label to revoke under, and every revocation lands and can be read back. */
  ghost predicate AllConfirmable(t: Tables, excess: seq<Drift>, replies: nat -> Reply) {
    forall k | 0 <= k < |excess| :: Target(t, excess[k].actor).Some? && replies(k) == Landed(true)
  }

  /** Revokes each excess role in turn; a dry run, the default, changes nothing. */
  method RepairDrift(chain: Chain, t: Tables, drift: seq<Drift>, dryRun: bool, replies: nat -> Reply)
    returns (after: Chain, repaired: nat, skipped: nat)
    ensures Shrunk(chain, after)
    ensures dryRun ==> after == chain && repaired == 0
    ensures repaired + skipped == |Filter(drift, Excess)|
    ensures !dryRun && skipped == 0 ==> Cleared(after, t, Filter(drift, Excess))
    ensures !dryRun && AllConfirmable(t, Filter(drift, Excess), replies) ==> skipped == 0
  {
    hide Shrunk, HoldsAction, Repaired, OutcomeOf, Target;
    var repairable := Filter(drift, Excess);
    after, repaired := chain, 0;
    ShrunkSelf(chain);
    if dryRun { return after, 0, |repairable|; }
    for k := 0 to |repairable|
      invariant Shrunk(chain, after) && repaired <= k
      invariant repaired == k ==> Cleared(after, t, repairable[..k])
      invariant AllConfirmable(t, repairable, replies) ==> repaired == k
    {
      var d := repairable[k];
      assert d in repairable;
      var next := Repaired(after, t, d, replies(k));
      RepairShrinks(after, t, d, replies(k));
      ShrunkTrans(chain, after, next);
      if repaired == k { ClearedShrunk(after, next, t, repairable[..k]); }
      OutcomeExact(after, t, d, replies(k));
      if OutcomeOf(next, t, d, replies(k)) == CONFIRMED {
        ConfirmedCleared(next, t, d, replies(k));
        repaired := repaired + 1;
      }
      PrefixStep(repairable, k);
      after := next;
    }
    assert repairable[..|repairable|] == repairable;
    skipped := |repairable| - repaired;
  }

  lemma ShrunkSelf(chain: Chain)
    ensures Shrunk(chain, chain)
  {
  }

  lemma ConfirmedCleared(after: Chain, t: Tables, d: Drift, reply: Reply)
    requires OutcomeOf(after, t, d, reply) == CONFIRMED
    ensures Target(t, d.actor).Some?
    ensures !HoldsAction(RolesAt(after, Target(t, d.actor).value), d.action)
  {
  }

  /** Once every revocation confirmed, comparing again finds excess only where the first pass could not read. */
  lemma RepairedThenClean(
    before: Chain, after: Chain, t: Tables, chosen: seq<nat>, first: Readable, second: Readable,
    drift: seq<Drift>, again: seq<Drift>, d: Drift)
    requires Faithful(before, t, chosen, first, drift) && Faithful(after, t, chosen, second, again)
    requires Shrunk(before, after) && Cleared(after, t, Filter(drift, Excess))
    requires d in again && d.kind == CHAIN_EXCESS
    ensures !first(d.agent, d.action) && Drift(UNREADABLE, d.agent, d.actor, d.ensLabel, d.action, false) in drift
  {
    hide Shrunk, HoldsAction, Comparable;
    var name := Target(t, d.actor).value;
    ShrunkHolds(before, after, name, d.action);
    assert d in drift ==> d in Filter(drift, Excess);
    var unread := Drift(UNREADABLE, d.agent, d.actor, d.ensLabel, d.action, false);
    assert Comparing(t, unread.agent, unread.action);
  }
}
