/** The incident lifecycle: opening, containing, investigating, deciding and closing (`incident-service.ts`). */
module Incidents {
  import opened Common
  import opened BigIntText
  import opened CapabilityTypes
  import opened IncidentTypes

  /** `contained` records that containment or a decision has been carried out; the program stores no such field. */
  datatype Incident = Incident(
    actor: Option<nat>, kind: IncidentType, severity: Severity, incidentStatus: IncidentStatus,
    mitigation: Option<Mitigation>, contained: bool)

  /** A capability row: its actor, its standing, its amount ceiling as text, and its type. */
  datatype Held = Held(owner: nat, standing: Status, ceiling: Option<string>, kind: string)

  const ATTENUATED_GRANT: string := "ATTENUATED_GRANT"

  datatype State = State(incidents: seq<Incident>, capabilities: seq<Held>)

  predicate Live(s: IncidentStatus) { s == OPEN || s == INVESTIGATING }

  predicate Concerns(i: Incident, actor: nat, kind: IncidentType) {
    i.actor == Some(actor) && i.kind == kind && Live(i.incidentStatus)
  }

  /** The newest of the first `n` incidents still open on this actor and type. */
  function LiveIncident(incidents: seq<Incident>, n: nat, actor: nat, kind: IncidentType): (r: Option<nat>)
    requires n <= |incidents|
    ensures r.Some? ==> r.value < n && Concerns(incidents[r.value], actor, kind)
    ensures r.None? ==> forall k | 0 <= k < n :: !Concerns(incidents[k], actor, kind)
  {
    if n == 0 then None
    else if Concerns(incidents[n - 1], actor, kind) then Some(n - 1)
    else LiveIncident(incidents, n - 1, actor, kind)
  }

  // ---- mitigation of capabilities ----

  /** An active row is suspended and its ceiling halved. */
  function Restricted(c: Held): Held {
    var reduced := AttenuatedLimit(c.ceiling, 2);
    if reduced.Some? && reduced != c.ceiling
    then c.(standing := SUSPENDED, ceiling := reduced, kind := ATTENUATED_GRANT)
    else c.(standing := SUSPENDED)
  }

  function Mitigated(c: Held, actor: nat, m: Mitigation): Held {
    if c.owner != actor then c
    else
      match m
      case REVOKE => if c.standing == ACTIVE || c.standing == SUSPENDED then c.(standing := REVOKED) else c
      case RESTRICT => if c.standing == ACTIVE then Restricted(c) else c
      case RESTORE => if c.standing == SUSPENDED then c.(standing := ACTIVE) else c
      case NONE => c
  }

  function Applied(caps: seq<Held>, actor: nat, m: Mitigation): (r: seq<Held>)
    ensures |r| == |caps|
  {
    seq(|caps|, i requires 0 <= i < |caps| => Mitigated(caps[i], actor, m))
  }

  /** A row keeps its owner, its ceiling never widens, and what is revoked or expired stays as it is. */
  predicate HeldKept(a: Held, b: Held) {
    && a.owner == b.owner && NoWider(b.ceiling, a.ceiling)
    && (a.standing == REVOKED || a.standing == EXPIRED ==> a == b)
  }

  lemma MitigatedKept(c: Held, actor: nat, m: Mitigation)
    ensures HeldKept(c, Mitigated(c, actor, m))
  {
    hide ReadBigInt, AttenuatedLimit;
    AttenuationExact(c.ceiling, 2);
  }

  /**
   * Containment leaves the actor nothing active, and revocation nothing that could become active again;
   * a restricted row's ceiling reads as half of what it was, rounded toward zero.
   */
  lemma MitigationWithdraws(caps: seq<Held>, actor: nat, m: Mitigation, i: nat)
    requires i < |caps| && caps[i].owner == actor && (m == RESTRICT || m == REVOKE)
    ensures Applied(caps, actor, m)[i].standing != ACTIVE
    ensures m == REVOKE ==> Applied(caps, actor, m)[i].standing != SUSPENDED
    ensures m == REVOKE ==> Applied(Applied(caps, actor, m), actor, RESTORE) == Applied(caps, actor, m)
    ensures
      var before, after := caps[i].ceiling, Applied(caps, actor, m)[i].ceiling;
      && (m == REVOKE || caps[i].standing != ACTIVE ==> after == before)
      && (m == RESTRICT && caps[i].standing == ACTIVE && before.Some? && ReadBigInt(before.value).Some? ==>
            after.Some? && ReadBigInt(after.value) == Some(Quotient(ReadBigInt(before.value).value, 2)))
  {
    hide ReadBigInt, AttenuatedLimit, Quotient;
    AttenuationExact(caps[i].ceiling, 2);
  }

  // ---- what the rest of the program does to capabilities ----

  /** A change to one actor's rows: a mitigation, a plain suspension, or a new row. */
  datatype Change = Mitigate(m: Mitigation) | Suspend | Grant(ceiling: Option<string>, kind: string)

  function Paused(c: Held, actor: nat): Held {
    if c.owner == actor && c.standing == ACTIVE then c.(standing := SUSPENDED) else c
  }

  function Changed(caps: seq<Held>, actor: nat, change: Change): seq<Held> {
    match change
    case Mitigate(m) => Applied(caps, actor, m)
    case Suspend => seq(|caps|, i requires 0 <= i < |caps| => Paused(caps[i], actor))
    case Grant(ceiling, kind) => caps + [Held(actor, ACTIVE, ceiling, kind)]
  }

  // ---- what a restoration gives back ----

  /** Rows a containment suspends. */
  predicate Withdrawable(c: Held, actor: nat) { c.owner == actor && c.standing == ACTIVE }

  /** Rows a restoration reactivates. */
  predicate Standby(c: Held, actor: nat) { c.owner == actor && c.standing == SUSPENDED }

  ghost predicate SameStandings(a: seq<Held>, b: seq<Held>) {
    |a| == |b| && forall i | 0 <= i < |a| :: a[i].standing == b[i].standing
  }

  ghost predicate NoneSuspended(caps: seq<Held>, actor: nat) {
    forall i | 0 <= i < |caps| :: !Standby(caps[i], actor)
  }

  /** No ceiling of an active row reads as a number, unless it is spelt "0": halving leaves them all alone. */
  ghost predicate NothingToHalve(caps: seq<Held>, actor: nat) {
    forall i | 0 <= i < |caps| && Withdrawable(caps[i], actor) :: Unhalved(caps[i])
  }

  predicate Unhalved(c: Held) {
    c.ceiling.None? || ReadBigInt(c.ceiling.value).None? || c.ceiling.value == "0"
  }

  /**
   * A containment and the restoration that undoes it give every row its standing back exactly when no
   * row of the actor was suspended before, and give back the rows themselves exactly when, besides,
   * there was no ceiling to halve.
   */
  lemma ContainedThenRestored(caps: seq<Held>, actor: nat)
    ensures
      var after := Applied(Applied(caps, actor, RESTRICT), actor, RESTORE);
      && (SameStandings(after, caps) <==> NoneSuspended(caps, actor))
      && (after == caps <==> NoneSuspended(caps, actor) && NothingToHalve(caps, actor))
  {
    hide ReadBigInt, AttenuatedLimit, Unhalved;
    var after := Applied(Applied(caps, actor, RESTRICT), actor, RESTORE);
    forall i | 0 <= i < |caps|
      ensures after[i].standing == caps[i].standing <==> !Standby(caps[i], actor)
      ensures after[i] == caps[i] <==>
        !Standby(caps[i], actor) && (Withdrawable(caps[i], actor) ==> Unhalved(caps[i]))
    {
      RowRestored(caps[i], actor);
    }
    if after == caps {
      assert forall i | 0 <= i < |caps| :: after[i] == caps[i];
    }
  }

  lemma RowRestored(c: Held, actor: nat)
    ensures
      var after := Mitigated(Mitigated(c, actor, RESTRICT), actor, RESTORE);
      && (after.standing == c.standing <==> !Standby(c, actor))
      && (after == c <==> !Standby(c, actor) && (Withdrawable(c, actor) ==> Unhalved(c)))
  {
    hide ReadBigInt, AttenuatedLimit;
    AttenuationExact(c.ceiling, 2);
  }

  // ---- operations ----

  function Contained(s: State, id: nat): State
    requires id < |s.incidents|
  {
    var i := s.incidents[id];
    var m := InitialMitigation(i.severity);
    if m == NONE || i.actor.None? then s.(incidents := s.incidents[id := i.(contained := true)])
    else
      State(s.incidents[id := i.(mitigation := Some(m), contained := true)], Applied(s.capabilities, i.actor.value, m))
  }

  function Opened(s: State, actor: Option<nat>, kind: IncidentType, severity: Severity, contain: bool): (State, nat) {
    var existing := if actor.Some? then LiveIncident(s.incidents, |s.incidents|, actor.value, kind) else None;
    if existing.Some? then
      var id, i := existing.value, s.incidents[existing.value];
      if Above(SeverityRank(severity), SeverityRank(i.severity)) then
        (Contained(s.(incidents := s.incidents[id := i.(severity := severity)]), id), id)
      else (s, id)
    else
      var id := |s.incidents|;
      var added := s.(incidents := s.incidents + [Incident(actor, kind, severity, OPEN, None, false)]);
      (if contain then Contained(added, id) else added, id)
  }

  /** The report opens an incident, or escalates the live one, so that containment is carried out. */
  predicate Contains(s: State, actor: nat, kind: IncidentType, severity: Severity) {
    var live := LiveIncident(s.incidents, |s.incidents|, actor, kind);
    live.None? || Above(SeverityRank(severity), SeverityRank(s.incidents[live.value].severity))
  }

  function Investigated(s: State, id: nat): State
    requires id < |s.incidents|
  {
    var i := s.incidents[id];
    if !IsClosed(i.incidentStatus) && CanTransition(i.incidentStatus, INVESTIGATING)
    then s.(incidents := s.incidents[id := i.(incidentStatus := INVESTIGATING)])
    else s
  }

  function Decided(s: State, id: nat, advice: Option<Advice>): State
    requires id < |s.incidents|
  {
    var i := s.incidents[id];
    if IsClosed(i.incidentStatus) then s
    else
      var m := MitigationFor(ReconcileRecommendation(DeterministicAction(i.severity), advice).action);
      var status := if CanTransition(i.incidentStatus, MITIGATED) && m != NONE then MITIGATED else i.incidentStatus;
      State(s.incidents[id := i.(mitigation := Some(m), incidentStatus := status, contained := true)],
            if i.actor.Some? && m != NONE then Applied(s.capabilities, i.actor.value, m) else s.capabilities)
  }

  datatype ClosingFault = NotAllowed | NoRootCause | MayNotRestore

  /** Closing needs a legal move, a stated cause, and, to restore an actor's authority, a false positive. */
  function ClosingFaultOf(s: State, id: nat, to: IncidentStatus, causeGiven: bool, restore: bool): Option<ClosingFault>
    requires id < |s.incidents|
  {
    if !CanTransition(s.incidents[id].incidentStatus, to) then Some(NotAllowed)
    else if !causeGiven then Some(NoRootCause)
    else if restore && s.incidents[id].actor.Some? && to != FALSE_POSITIVE then Some(MayNotRestore)
    else None
  }

  function Closed(s: State, id: nat, to: IncidentStatus, causeGiven: bool, restore: bool): State
    requires id < |s.incidents| && IsClosed(to)
  {
    var i := s.incidents[id];
    if ClosingFaultOf(s, id, to, causeGiven, restore).Some? then s
    else
      State(s.incidents[id := i.(incidentStatus := to, mitigation := if restore then Some(RESTORE) else i.mitigation)],
            if restore && i.actor.Some? then Applied(s.capabilities, i.actor.value, RESTORE) else s.capabilities)
  }

  // ---- the invariant ----

  predicate SameSubject(a: Incident, b: Incident) { a.actor.Some? && a.actor == b.actor && a.kind == b.kind }

  /** One live incident for each actor and type. */
  ghost predicate OneLive(s: State) {
    forall i, j | 0 <= i < j < |s.incidents| && SameSubject(s.incidents[i], s.incidents[j]) ::
      !(Live(s.incidents[i].incidentStatus) && Live(s.incidents[j].incidentStatus))
  }

  /** The recorded mitigation withholds at least what the current severity justifies on its own. */
  predicate Covered(i: Incident) {
    i.contained && i.actor.Some? && !IsClosed(i.incidentStatus) ==>
      Withheld(i.mitigation) >= Withheld(Some(InitialMitigation(i.severity)))
  }

  ghost predicate Sound(s: State) {
    OneLive(s) && forall k | 0 <= k < |s.incidents| :: Covered(s.incidents[k])
  }

  // ---- what one step keeps of every incident ----

  /** Severity never falls, closed incidents never change, and status only moves forward. */
  predicate IncidentKept(a: Incident, b: Incident) {
    && a.actor == b.actor && a.kind == b.kind
    && (a.severity == b.severity || Above(SeverityRank(b.severity), SeverityRank(a.severity)))
    && (a.incidentStatus == b.incidentStatus || CanTransition(a.incidentStatus, b.incidentStatus))
    && (IsClosed(a.incidentStatus) ==> a == b)
  }

  ghost predicate CapsKept(a: seq<Held>, b: seq<Held>) {
    |a| <= |b| && forall i | 0 <= i < |a| :: HeldKept(a[i], b[i])
  }

  lemma CapsKeptTrans(a: seq<Held>, b: seq<Held>, c: seq<Held>)
    requires CapsKept(a, b) && CapsKept(b, c)
    ensures CapsKept(a, c)
  {
    hide ReadBigInt;
    forall i | 0 <= i < |a| ensures HeldKept(a[i], c[i]) {
      assert HeldKept(a[i], b[i]) && HeldKept(b[i], c[i]);
    }
  }

  lemma AppliedKept(caps: seq<Held>, actor: nat, m: Mitigation)
    ensures CapsKept(caps, Applied(caps, actor, m))
  {
    hide HeldKept, Mitigated;
    forall i | 0 <= i < |caps| ensures HeldKept(caps[i], Applied(caps, actor, m)[i]) {
      MitigatedKept(caps[i], actor, m);
    }
  }

  ghost predicate Kept(s: State, t: State) {
    && |s.incidents| <= |t.incidents| && CapsKept(s.capabilities, t.capabilities)
    && forall k | 0 <= k < |s.incidents| :: IncidentKept(s.incidents[k], t.incidents[k])
  }

  lemma KeptTrans(a: State, b: State, c: State)
    requires Kept(a, b) && Kept(b, c)
    ensures Kept(a, c)
  {
    hide HeldKept;
    CapsKeptTrans(a.capabilities, b.capabilities, c.capabilities);
    forall k | 0 <= k < |a.incidents| ensures IncidentKept(a.incidents[k], c.incidents[k]) {
      assert IncidentKept(a.incidents[k], b.incidents[k]) && IncidentKept(b.incidents[k], c.incidents[k]);
      hide Inherited;
    }
  }

  /** One incident was replaced by a later form of itself, not more live than before. */
  lemma ReplacedSound(s: State, id: nat, i: Incident, caps: seq<Held>)
    requires OneLive(s) && id < |s.incidents| && CapsKept(s.capabilities, caps)
    requires forall k | 0 <= k < |s.incidents| && k != id :: Covered(s.incidents[k])
    requires IncidentKept(s.incidents[id], i) && Covered(i)
    requires Live(i.incidentStatus) ==> Live(s.incidents[id].incidentStatus)
    ensures Sound(State(s.incidents[id := i], caps)) && Kept(s, State(s.incidents[id := i], caps))
  {
    hide SeverityRank;
    var t := State(s.incidents[id := i], caps);
    forall a, b | 0 <= a < b < |t.incidents| && SameSubject(t.incidents[a], t.incidents[b])
      ensures !(Live(t.incidents[a].incidentStatus) && Live(t.incidents[b].incidentStatus))
    {
      assert !(Live(s.incidents[a].incidentStatus) && Live(s.incidents[b].incidentStatus));
    }
  }

  lemma ContainedSound(s: State, id: nat)
    requires OneLive(s) && id < |s.incidents| && !IsClosed(s.incidents[id].incidentStatus)
    requires forall k | 0 <= k < |s.incidents| && k != id :: Covered(s.incidents[k])
    ensures Sound(Contained(s, id)) && Kept(s, Contained(s, id))
  {
    var i := s.incidents[id];
    var m := InitialMitigation(i.severity);
    if m == NONE || i.actor.None? {
      ReplacedSound(s, id, i.(contained := true), s.capabilities);
    } else {
      AppliedKept(s.capabilities, i.actor.value, m);
      ReplacedSound(s, id, i.(mitigation := Some(m), contained := true), Applied(s.capabilities, i.actor.value, m));
    }
  }

  lemma EscalatedSound(s: State, id: nat, severity: Severity)
    requires Sound(s) && id < |s.incidents| && !IsClosed(s.incidents[id].incidentStatus)
    requires Above(SeverityRank(severity), SeverityRank(s.incidents[id].severity))
    ensures
      var t := Contained(s.(incidents := s.incidents[id := s.incidents[id].(severity := severity)]), id);
      Sound(t) && Kept(s, t)
  {
    hide SeverityRank;
    var raised := s.(incidents := s.incidents[id := s.incidents[id].(severity := severity)]);
    assert OneLive(raised);
    assert Kept(s, raised);
    ContainedSound(raised, id);
    KeptTrans(s, raised, Contained(raised, id));
  }

  lemma AddedSound(s: State, i: Incident)
    requires Sound(s) && Covered(i)
    requires i.actor.Some? ==> LiveIncident(s.incidents, |s.incidents|, i.actor.value, i.kind).None?
    ensures Sound(s.(incidents := s.incidents + [i])) && Kept(s, s.(incidents := s.incidents + [i]))
  {
    var t := s.(incidents := s.incidents + [i]);
    forall a, b | 0 <= a < b < |t.incidents| && SameSubject(t.incidents[a], t.incidents[b])
      ensures !(Live(t.incidents[a].incidentStatus) && Live(t.incidents[b].incidentStatus))
    {
      if b == |s.incidents| { assert !Concerns(s.incidents[a], i.actor.value, i.kind); }
    }
  }

  lemma OpenedSound(s: State, actor: Option<nat>, kind: IncidentType, severity: Severity, contain: bool)
    requires Sound(s)
    ensures
      var (t, id) := Opened(s, actor, kind, severity, contain);
      Sound(t) && Kept(s, t) && id < |t.incidents|
  {
    hide SeverityRank, Sound, Kept, Covered, Contained;
    KeptSelf(s);
    var existing := if actor.Some? then LiveIncident(s.incidents, |s.incidents|, actor.value, kind) else None;
    if existing.Some? {
      if Above(SeverityRank(severity), SeverityRank(s.incidents[existing.value].severity)) {
        var id, i := existing.value, s.incidents[existing.value];
        EscalatedSound(s, id, severity);
        ContainedSize(s.(incidents := s.incidents[id := i.(severity := severity)]), id);
      }
    } else {
      var i := Incident(actor, kind, severity, OPEN, None, false);
      NewCovered(i);
      AddedSound(s, i);
      var added := s.(incidents := s.incidents + [i]);
      SoundParts(added);
      ContainedSound(added, |s.incidents|);
      ContainedSize(added, |s.incidents|);
      if contain { KeptTrans(s, added, Contained(added, |s.incidents|)); }
    }
  }

  lemma SoundParts(s: State)
    requires Sound(s)
    ensures OneLive(s) && forall k | 0 <= k < |s.incidents| :: Covered(s.incidents[k])
  {
  }

  lemma NewCovered(i: Incident)
    requires !i.contained
    ensures Covered(i)
  {
  }

  lemma ContainedSize(s: State, id: nat)
    requires id < |s.incidents|
    ensures |Contained(s, id).incidents| == |s.incidents|
  {
  }

  lemma KeptSelf(s: State)
    ensures Kept(s, s)
  {
  }

  lemma InvestigatedSound(s: State, id: nat)
    requires Sound(s) && id < |s.incidents|
    ensures Sound(Investigated(s, id)) && Kept(s, Investigated(s, id))
  {
    KeptSelf(s);
    var i := s.incidents[id];
    if !IsClosed(i.incidentStatus) && CanTransition(i.incidentStatus, INVESTIGATING) {
      ReplacedSound(s, id, i.(incidentStatus := INVESTIGATING), s.capabilities);
    }
  }

  lemma DecidedSound(s: State, id: nat, advice: Option<Advice>)
    requires Sound(s) && id < |s.incidents|
    ensures Sound(Decided(s, id, advice)) && Kept(s, Decided(s, id, advice))
  {
    hide ReconcileRecommendation, SeverityRank;
    KeptSelf(s);
    var i := s.incidents[id];
    if !IsClosed(i.incidentStatus) {
      DecisionCoversContainment(i.severity, advice);
      var m := MitigationFor(ReconcileRecommendation(DeterministicAction(i.severity), advice).action);
      var status := if CanTransition(i.incidentStatus, MITIGATED) && m != NONE then MITIGATED else i.incidentStatus;
      var caps := if i.actor.Some? && m != NONE then Applied(s.capabilities, i.actor.value, m) else s.capabilities;
      if i.actor.Some? { AppliedKept(s.capabilities, i.actor.value, m); }
      ReplacedSound(s, id, i.(mitigation := Some(m), incidentStatus := status, contained := true), caps);
    }
  }

  lemma ClosedSound(s: State, id: nat, to: IncidentStatus, causeGiven: bool, restore: bool)
    requires Sound(s) && id < |s.incidents| && IsClosed(to)
    ensures Sound(Closed(s, id, to, causeGiven, restore)) && Kept(s, Closed(s, id, to, causeGiven, restore))
  {
    KeptSelf(s);
    var i := s.incidents[id];
    if ClosingFaultOf(s, id, to, causeGiven, restore).None? {
      if i.actor.Some? { AppliedKept(s.capabilities, i.actor.value, RESTORE); }
      ReplacedSound(s, id, i.(incidentStatus := to, mitigation := if restore then Some(RESTORE) else i.mitigation),
                    Closed(s, id, to, causeGiven, restore).capabilities);
    }
  }

  // ---- runs ----

  datatype Event =
    | Open(actor: Option<nat>, kind: IncidentType, severity: Severity, contain: bool)
    | Investigate(id: nat)
    | Decide(id: nat, advice: Option<Advice>)
    | Close(id: nat, falsePositive: bool, causeGiven: bool, restore: bool)
    | Elsewhere(owner: nat, change: Change)

  /** `Elsewhere` is the rest of the program: trust suspends and revokes, agents are unfrozen, intents grant. */
  function Step(s: State, e: Event): State {
    match e
    case Open(actor, kind, severity, contain) => Opened(s, actor, kind, severity, contain).0
    case Investigate(id) => if id < |s.incidents| then Investigated(s, id) else s
    case Decide(id, advice) => if id < |s.incidents| then Decided(s, id, advice) else s
    case Close(id, fp, cause, restore) =>
      if id < |s.incidents| then Closed(s, id, if fp then FALSE_POSITIVE else RESOLVED, cause, restore) else s
    case Elsewhere(actor, change) => s.(capabilities := Changed(s.capabilities, actor, change))
  }

  function Run(caps: seq<Held>, events: seq<Event>): State {
    if events == [] then State([], caps) else Step(Run(caps, events[..|events| - 1]), events[|events| - 1])
  }

  lemma StepSound(s: State, e: Event)
    requires Sound(s)
    ensures Sound(Step(s, e)) && Kept(s, Step(s, e))
  {
    hide Sound, Kept, Opened, Investigated, Decided, Closed;
    KeptSelf(s);
    match e
    case Open(actor, kind, severity, contain) => OpenedSound(s, actor, kind, severity, contain);
    case Investigate(id) => if id < |s.incidents| { InvestigatedSound(s, id); }
    case Decide(id, advice) => if id < |s.incidents| { DecidedSound(s, id, advice); }
    case Close(id, fp, cause, restore) =>
      if id < |s.incidents| { ClosedSound(s, id, if fp then FALSE_POSITIVE else RESOLVED, cause, restore); }
    case Elsewhere(actor, change) => ElsewhereSound(s, actor, change);
  }

  lemma ChangedKept(caps: seq<Held>, actor: nat, change: Change)
    ensures CapsKept(caps, Changed(caps, actor, change))
  {
    hide ReadBigInt, AttenuatedLimit;
    if change.Mitigate? { AppliedKept(caps, actor, change.m); }
  }

  lemma ElsewhereSound(s: State, actor: nat, change: Change)
    requires Sound(s)
    ensures
      var t := s.(capabilities := Changed(s.capabilities, actor, change));
      Sound(t) && Kept(s, t)
  {
    hide Covered, CapsKept;
    ChangedKept(s.capabilities, actor, change);
    KeptSelf(s);
    assert forall k | 0 <= k < |s.incidents| :: IncidentKept(s.incidents[k], s.incidents[k]);
  }

  /** In every run: one live incident per actor and type, and every contained one keeps its floor. */
  lemma {:induction false} RunSound(caps: seq<Held>, events: seq<Event>)
    ensures Sound(Run(caps, events))
  {
    hide Step;
    if events != [] {
      RunSound(caps, events[..|events| - 1]);
      StepSound(Run(caps, events[..|events| - 1]), events[|events| - 1]);
    }
  }

  ghost predicate AsksContainment(events: seq<Event>) {
    forall e | e in events && e.Open? :: e.contain
  }

  lemma StepContained(s: State, e: Event)
    requires e.Open? ==> e.contain
    requires forall k | 0 <= k < |s.incidents| :: s.incidents[k].contained
    ensures forall k | 0 <= k < |Step(s, e).incidents| :: Step(s, e).incidents[k].contained
  {
    hide SeverityRank, ReconcileRecommendation, Applied, LiveIncident, InitialMitigation;
  }

  lemma {:induction false} AllContained(caps: seq<Held>, events: seq<Event>)
    requires AsksContainment(events)
    ensures forall k | 0 <= k < |Run(caps, events).incidents| :: Run(caps, events).incidents[k].contained
  {
    hide Step;
    if events != [] {
      var init, last := events[..|events| - 1], events[|events| - 1];
      assert events == init + [last] && last in events;
      AllContained(caps, init);
      StepContained(Run(caps, init), last);
    }
  }

  /**
   * In every run whose reports all ask for containment, an incident of an actor that is not closed
   * withholds at least what its current severity justifies on its own.
   */
  lemma ReportsKeepFloor(caps: seq<Held>, events: seq<Event>, k: nat)
    requires AsksContainment(events) && k < |Run(caps, events).incidents|
    ensures
      var i := Run(caps, events).incidents[k];
      i.actor.Some? && !IsClosed(i.incidentStatus) ==>
        Withheld(i.mitigation) >= Withheld(Some(InitialMitigation(i.severity)))
  {
    hide Run;
    RunSound(caps, events);
    AllContained(caps, events);
  }

  /** A report that declines containment leaves a critical incident withholding nothing. */
  lemma DeclinedContainment(caps: seq<Held>)
    ensures
      var run := Run(caps, [Open(Some(0), MANUAL, CRITICAL, false)]);
      && |run.incidents| == 1 && run.capabilities == caps
      && Withheld(run.incidents[0].mitigation) < Withheld(Some(InitialMitigation(CRITICAL)))
  {
    assert Run(caps, []) == State([], caps);
  }

  /** Along any run severity never falls, status moves forward only, and what is closed stays as it is. */
  lemma {:induction false} RunKeeps(caps: seq<Held>, events: seq<Event>, k: nat)
    requires k <= |events|
    ensures Kept(Run(caps, events[..k]), Run(caps, events))
  {
    hide Kept, Sound, Step;
    if k == |events| {
      assert events[..k] == events;
      KeptSelf(Run(caps, events));
    } else {
      var init := events[..|events| - 1];
      RunKeeps(caps, init, k);
      assert init[..k] == events[..k];
      RunSound(caps, init);
      StepSound(Run(caps, init), events[|events| - 1]);
      KeptTrans(Run(caps, events[..k]), Run(caps, init), Run(caps, events));
    }
  }

  /** An incident that is opened, or escalated, with containment leaves its actor nothing active if it is serious. */
  lemma SeriousMeansContained(s: State, actor: nat, kind: IncidentType, severity: Severity, c: nat)
    requires severity == HIGH || severity == CRITICAL
    requires c < |s.capabilities| && s.capabilities[c].owner == actor
    requires Contains(s, actor, kind, severity)
    ensures c < |Opened(s, Some(actor), kind, severity, true).0.capabilities|
    ensures Opened(s, Some(actor), kind, severity, true).0.capabilities[c].standing != ACTIVE
  {
    hide SeverityRank;
    MitigationWithdraws(s.capabilities, actor, InitialMitigation(severity), c);
  }

  /** A row after authority over it was taken away, or restricted. */
  predicate Taken(before: Held, after: Held) {
    after == if before.standing == ACTIVE || before.standing == SUSPENDED then before.(standing := REVOKED) else before
  }

  predicate Reduced(before: Held, after: Held) {
    if before.standing != ACTIVE then after == before
    else
      && after.owner == before.owner && after.standing == SUSPENDED
      && after.ceiling == AttenuatedLimit(before.ceiling, 2)
      && after.kind == if after.ceiling == before.ceiling then before.kind else "ATTENUATED_GRANT"
  }

  /**
   * Deciding on a live incident, for each row of its actor: everything that could be used is revoked for the gravest
   * severities, for advice to block and for unreadable advice; nothing is touched for a LOW incident that nobody
   * advised against; and otherwise what is active is suspended and halved. Other actors' rows are never touched.
   */
  lemma DecidedMeans(s: State, id: nat, advice: Option<Advice>, c: nat)
    requires id < |s.incidents| && !IsClosed(s.incidents[id].incidentStatus)
    requires c < |s.capabilities|
    ensures c < |Decided(s, id, advice).capabilities| && id < |Decided(s, id, advice).incidents|
    ensures
      var i, before, after := s.incidents[id], s.capabilities[c], Decided(s, id, advice).capabilities[c];
      var m := Decided(s, id, advice).incidents[id].mitigation;
      if MostSerious(i.severity) || advice == Some(Action(BLOCK)) || Unreadable(advice) then
        m == Some(REVOKE) && if i.actor == Some(before.owner) then Taken(before, after) else after == before
      else if i.severity == LOW && advice != Some(Action(REVIEW)) && advice != Some(Action(LIMIT)) then
        m == Some(NONE) && after == before
      else m == Some(RESTRICT) && if i.actor == Some(before.owner) then Reduced(before, after) else after == before
  {
    hide AttenuatedLimit, Unreadable, MostSerious, ReconcileRecommendation, DeterministicAction, MitigationFor;
    DecisionExact(s.incidents[id].severity, advice);
    if s.capabilities[c].standing == ACTIVE { RestrictedMeans(s.capabilities[c]); }
  }

  lemma RestrictedMeans(c: Held)
    requires c.standing == ACTIVE
    ensures Reduced(c, Restricted(c))
  {
    hide ReadBigInt;
    AttenuationExact(c.ceiling, 2);
  }

  /** Containment by severity: LOW and MEDIUM touch nothing, HIGH reduces what is active, anything graver takes it. */
  predicate ContainedRow(severity: Severity, actor: nat, before: Held, after: Held) {
    if before.owner != actor || severity == LOW || severity == MEDIUM then after == before
    else if severity == HIGH then Reduced(before, after)
    else Taken(before, after)
  }

  function ContainedBy(severity: Severity, before: Option<Mitigation>): Option<Mitigation> {
    if severity == LOW || severity == MEDIUM then before
    else if severity == HIGH then Some(RESTRICT)
    else Some(REVOKE)
  }

  ghost predicate RowsContained(severity: Severity, actor: nat, before: seq<Held>, after: seq<Held>) {
    |before| == |after| && forall c | 0 <= c < |before| :: ContainedRow(severity, actor, before[c], after[c])
  }

  /** Still open on this actor and type. */
  predicate OpenOn(i: Incident, actor: nat, kind: IncidentType) {
    i.actor == Some(actor) && i.kind == kind && (i.incidentStatus == OPEN || i.incidentStatus == INVESTIGATING)
  }

  /** In every run no two incidents are open on one actor and type at once. */
  lemma OneOpenIncident(caps: seq<Held>, events: seq<Event>, j: nat, k: nat, actor: nat, kind: IncidentType)
    requires j < |Run(caps, events).incidents| && k < |Run(caps, events).incidents|
    requires OpenOn(Run(caps, events).incidents[j], actor, kind) && OpenOn(Run(caps, events).incidents[k], actor, kind)
    ensures j == k
  {
    hide Run;
    RunSound(caps, events);
  }

  lemma ContainedRows(caps: seq<Held>, actor: nat, severity: Severity)
    ensures RowsContained(severity, actor, caps,
      if InitialMitigation(severity) == NONE then caps else Applied(caps, actor, InitialMitigation(severity)))
  {
    hide AttenuatedLimit;
    forall c | 0 <= c < |caps| && caps[c].standing == ACTIVE { RestrictedMeans(caps[c]); }
  }

  /**
   * A report on an actor and type with an incident still open adds none. A graver one raises that incident and is
   * contained at once, whether or not it asks; any other changes nothing at all.
   */
  lemma ReportDeduplicated(s: State, actor: nat, kind: IncidentType, severity: Severity, contain: bool, k: nat)
    requires OneLive(s) && k < |s.incidents| && OpenOn(s.incidents[k], actor, kind)
    ensures
      var (t, id) := Opened(s, Some(actor), kind, severity, contain);
      var i := s.incidents[k];
      && id == k
      && if !Graver(severity, i.severity) then t == s
         else
           && t.incidents == s.incidents[k :=
                i.(severity := severity, mitigation := ContainedBy(severity, i.mitigation), contained := true)]
           && RowsContained(severity, actor, s.capabilities, t.capabilities)
  {
    hide SeverityRank, Graver, Applied;
    SeverityOrder(severity, s.incidents[k].severity);
    ContainedRows(s.capabilities, actor, severity);
    assert Concerns(s.incidents[k], actor, kind);
    var live := LiveIncident(s.incidents, |s.incidents|, actor, kind).value;
    assert SameSubject(s.incidents[k], s.incidents[live]);
  }

  /** Without one, an incident is opened, and contained by its severity if the report asks. */
  lemma ReportOpens(s: State, actor: nat, kind: IncidentType, severity: Severity, contain: bool)
    requires forall k | 0 <= k < |s.incidents| :: !OpenOn(s.incidents[k], actor, kind)
    ensures
      var (t, id) := Opened(s, Some(actor), kind, severity, contain);
      && id == |s.incidents|
      && t.incidents == s.incidents + [Incident(Some(actor), kind, severity, OPEN,
                                                if contain then ContainedBy(severity, None) else None, contain)]
      && if contain then RowsContained(severity, actor, s.capabilities, t.capabilities)
         else t.capabilities == s.capabilities
  {
    hide Applied, SeverityRank;
    ContainedRows(s.capabilities, actor, severity);
    NoneLive(s, actor, kind);
  }

  lemma NoneLive(s: State, actor: nat, kind: IncidentType)
    requires forall k | 0 <= k < |s.incidents| :: !OpenOn(s.incidents[k], actor, kind)
    ensures LiveIncident(s.incidents, |s.incidents|, actor, kind).None?
  {
    var live := LiveIncident(s.incidents, |s.incidents|, actor, kind);
    forall k: nat | live == Some(k) ensures false { assert OpenOn(s.incidents[k], actor, kind); }
  }

  /** Investigating moves an OPEN incident on, and changes no other incident and no capability. */
  lemma InvestigatedMeans(s: State, id: nat)
    requires id < |s.incidents|
    ensures Step(s, Investigate(id)) == Investigated(s, id) ==
      if s.incidents[id].incidentStatus == OPEN
      then s.(incidents := s.incidents[id := s.incidents[id].(incidentStatus := INVESTIGATING)]) else s
  {
  }

  /** A decision marks an incident mitigated exactly when it is still live and something is withheld. */
  lemma DecidedStatus(s: State, id: nat, advice: Option<Advice>)
    requires id < |s.incidents| && !IsClosed(s.incidents[id].incidentStatus)
    ensures
      var i, t := s.incidents[id], Decided(s, id, advice);
      && id < |t.incidents| && t.incidents == s.incidents[id := t.incidents[id]] && t.incidents[id].contained
      && t.incidents[id] == i.(mitigation := t.incidents[id].mitigation, contained := true,
                               incidentStatus := if t.incidents[id].mitigation == Some(NONE) then i.incidentStatus
                                                 else MITIGATED)
  {
    hide ReconcileRecommendation, DeterministicAction, MitigationFor, Applied;
  }

  /** A row given back: what was suspended is active again. */
  predicate GivenBack(before: Held, after: Held) {
    after == if before.standing == SUSPENDED then before.(standing := ACTIVE) else before
  }

  /**
   * Closing takes an incident not yet closed, a stated cause and, to give an actor's authority back, a false positive;
   * then exactly this incident is closed, and with `restore` the actor's suspended rows are active again.
   */
  lemma ClosedMeans(s: State, id: nat, to: IncidentStatus, cause: bool, restore: bool)
    requires id < |s.incidents| && (to == RESOLVED || to == FALSE_POSITIVE)
    ensures
      var i, t := s.incidents[id], Closed(s, id, to, cause, restore);
      var fault := ClosingFaultOf(s, id, to, cause, restore);
      if i.incidentStatus == RESOLVED || i.incidentStatus == FALSE_POSITIVE then t == s && fault == Some(NotAllowed)
      else if !cause then t == s && fault == Some(NoRootCause)
      else if restore && i.actor.Some? && to == RESOLVED then t == s && fault == Some(MayNotRestore)
      else
        && fault.None?
        && t.incidents == s.incidents[id :=
             i.(incidentStatus := to, mitigation := if restore then Some(RESTORE) else i.mitigation)]
        && |t.capabilities| == |s.capabilities|
        && forall c | 0 <= c < |s.capabilities| ::
          if restore && i.actor == Some(s.capabilities[c].owner)
          then GivenBack(s.capabilities[c], t.capabilities[c]) else t.capabilities[c] == s.capabilities[c]
  {
  }

  // ---- who did what to whom ----

  /** The rows of `actor` are changed, on behalf of incident `cause` if of any. */
  datatype Touch = Touch(actor: nat, change: Change, cause: Option<nat>)

  function ContainmentOf(actor: nat, severity: Severity, id: nat): Option<Touch> {
    if InitialMitigation(severity) == NONE then None
    else Some(Touch(actor, Mitigate(InitialMitigation(severity)), Some(id)))
  }

  /** What an event does to capability rows. */
  function TouchOf(s: State, e: Event): Option<Touch> {
    match e
    case Open(None, _, _, _) => None
    case Open(Some(actor), kind, severity, contain) =>
      var live := LiveIncident(s.incidents, |s.incidents|, actor, kind);
      if live.None? then (if contain then ContainmentOf(actor, severity, |s.incidents|) else None)
      else if Above(SeverityRank(severity), SeverityRank(s.incidents[live.value].severity))
      then ContainmentOf(actor, severity, live.value)
      else None
    case Investigate(_) => None
    case Decide(id, advice) =>
      if id >= |s.incidents| || IsClosed(s.incidents[id].incidentStatus) || s.incidents[id].actor.None? then None
      else
        var floor := DeterministicAction(s.incidents[id].severity);
        var m := MitigationFor(ReconcileRecommendation(floor, advice).action);
        if m == NONE then None else Some(Touch(s.incidents[id].actor.value, Mitigate(m), Some(id)))
    case Close(id, fp, cause, restore) =>
      if id >= |s.incidents| || !restore || s.incidents[id].actor.None?
         || ClosingFaultOf(s, id, if fp then FALSE_POSITIVE else RESOLVED, cause, restore).Some?
      then None
      else Some(Touch(s.incidents[id].actor.value, Mitigate(RESTORE), Some(id)))
    case Elsewhere(actor, change) => Some(Touch(actor, change, None))
  }

  /** Every event changes the capabilities as its touch says, and a touch for an incident is on its actor's rows. */
  lemma StepCapabilities(s: State, e: Event)
    ensures
      var t := TouchOf(s, e);
      && Step(s, e).capabilities ==
           (if t.None? then s.capabilities else Changed(s.capabilities, t.value.actor, t.value.change))
      && (t.Some? && t.value.cause.Some? ==>
            && t.value.cause.value < |Step(s, e).incidents|
            && Step(s, e).incidents[t.value.cause.value].actor == Some(t.value.actor))
      && (t.Some? ==> t.value.cause == CauseOf(s, e))
  {
    hide SeverityRank, ReconcileRecommendation, Applied;
  }

  /** The incident an event is about, if it is about one. */
  function CauseOf(s: State, e: Event): Option<nat> {
    match e
    case Open(actor, kind, severity, contain) => Some(Opened(s, actor, kind, severity, contain).1)
    case Investigate(id) => Some(id)
    case Decide(id, _) => Some(id)
    case Close(id, _, _, _) => Some(id)
    case Elsewhere(_, _) => None
  }

  ghost function StateAt(caps: seq<Held>, events: seq<Event>, n: nat): State
    requires n <= |events|
  {
    Run(caps, events[..n])
  }

  ghost function TouchAt(caps: seq<Held>, events: seq<Event>, j: nat): Option<Touch>
    requires j < |events|
  {
    TouchOf(StateAt(caps, events, j), events[j])
  }

  lemma StateExtends(caps: seq<Held>, events: seq<Event>, e: Event, n: nat)
    requires n <= |events|
    ensures StateAt(caps, events + [e], n) == StateAt(caps, events, n)
    ensures n < |events| ==> TouchAt(caps, events + [e], n) == TouchAt(caps, events, n)
  {
    assert (events + [e])[..n] == events[..n];
  }

  lemma StateLast(caps: seq<Held>, events: seq<Event>, e: Event)
    ensures StateAt(caps, events + [e], |events|) == StateAt(caps, events, |events|) == Run(caps, events)
    ensures Run(caps, events + [e]) == Step(Run(caps, events), e) == StateAt(caps, events + [e], |events| + 1)
    ensures TouchAt(caps, events + [e], |events|) == TouchOf(Run(caps, events), e)
  {
    hide Step;
    assert (events + [e])[..|events|] == events && events[..|events|] == events;
    assert (events + [e])[..|events| + 1] == events + [e];
  }

  // ---- whose suspension a row is under ----

  predicate SuspendedRow(s: State, i: nat) { i < |s.capabilities| && s.capabilities[i].standing == SUSPENDED }

  predicate ActiveRow(s: State, i: nat) { i < |s.capabilities| && s.capabilities[i].standing == ACTIVE }

  /** From just after event `j`, or from the start for `j == -1`, the row has been suspended. */
  ghost predicate SuspendedSince(caps: seq<Held>, events: seq<Event>, i: nat, j: int) {
    -1 <= j < |events| && forall n | j < n <= |events| :: SuspendedRow(StateAt(caps, events, n), i)
  }

  /** Event `j` suspended the row, which was active before. */
  ghost predicate SuspendsAt(caps: seq<Held>, events: seq<Event>, i: nat, j: nat)
    requires j < |events|
  {
    ActiveRow(StateAt(caps, events, j), i) && SuspendedSince(caps, events, i, j)
  }

  predicate ActsFor(t: Option<Touch>, id: nat) { t.Some? && t.value.cause == Some(id) }

  /** The suspension the row is under was put there by incident `id`. */
  ghost predicate SuspendedBy(caps: seq<Held>, events: seq<Event>, i: nat, id: nat) {
    exists j :: 0 <= j < |events| && SuspendsAt(caps, events, i, j) && ActsFor(TouchAt(caps, events, j), id)
  }

  /** It was there from the start, or was put there by something else. */
  ghost predicate SuspendedOtherwise(caps: seq<Held>, events: seq<Event>, i: nat, id: nat) {
    || SuspendedSince(caps, events, i, -1)
    || exists j :: 0 <= j < |events| && SuspendsAt(caps, events, i, j) && !ActsFor(TouchAt(caps, events, j), id)
  }

  lemma SinceExtends(caps: seq<Held>, events: seq<Event>, e: Event, i: nat, j: int)
    requires SuspendedSince(caps, events, i, j) && SuspendedRow(Run(caps, events + [e]), i)
    ensures SuspendedSince(caps, events + [e], i, j)
    ensures j >= 0 && SuspendsAt(caps, events, i, j) ==>
      SuspendsAt(caps, events + [e], i, j) && TouchAt(caps, events + [e], j) == TouchAt(caps, events, j)
  {
    hide Run, SuspendedRow, TouchOf;
    StateLast(caps, events, e);
    forall n | j < n <= |events| + 1 ensures SuspendedRow(StateAt(caps, events + [e], n), i) {
      if n <= |events| { StateExtends(caps, events, e, n); }
    }
    if j >= 0 { StateExtends(caps, events, e, j); }
  }

  /** A row that a step leaves suspended was suspended or active before it. */
  lemma StepSuspends(s: State, e: Event, i: nat)
    requires SuspendedRow(Step(s, e), i)
    ensures SuspendedRow(s, i) || ActiveRow(s, i)
  {
    hide Step, TouchOf, AttenuatedLimit;
    StepCapabilities(s, e);
  }

  /** Every suspended row is under exactly one of the two kinds of suspension. */
  lemma {:induction false} SuspensionHasCause(caps: seq<Held>, events: seq<Event>, i: nat, id: nat)
    requires SuspendedRow(Run(caps, events), i)
    ensures SuspendedBy(caps, events, i, id) || SuspendedOtherwise(caps, events, i, id)
  {
    hide Step, TouchOf, SuspendedRow, ActiveRow, ActsFor;
    if events == [] {
      assert events[..0] == [];
      assert SuspendedSince(caps, events, i, -1);
    } else {
      var init, e := events[..|events| - 1], events[|events| - 1];
      assert events == init + [e];
      StepSuspends(Run(caps, init), e, i);
      StateLast(caps, init, e);
      if SuspendedRow(Run(caps, init), i) {
        SuspensionHasCause(caps, init, i, id);
        forall j | -1 <= j < |init| && SuspendedSince(caps, init, i, j) { SinceExtends(caps, init, e, i, j); }
        if !SuspendedSince(caps, init, i, -1) {
          var j :| 0 <= j < |init| && SuspendsAt(caps, init, i, j);
          assert SuspendsAt(caps, events, i, j);
        }
      } else {
        assert SuspendsAt(caps, events, i, |init|);
      }
    }
  }

  lemma OneCause(caps: seq<Held>, events: seq<Event>, i: nat, id: nat)
    requires SuspendedBy(caps, events, i, id)
    ensures !SuspendedOtherwise(caps, events, i, id)
    ensures SuspendedRow(Run(caps, events), i)
  {
    hide Run, TouchOf;
    var j :| 0 <= j < |events| && SuspendsAt(caps, events, i, j) && ActsFor(TouchAt(caps, events, j), id);
    assert events[..|events|] == events && SuspendedRow(StateAt(caps, events, |events|), i);
    assert !SuspendedRow(StateAt(caps, events, j), i);
    forall m | 0 <= m < |events| && SuspendsAt(caps, events, i, m) ensures m == j {
      assert !SuspendedRow(StateAt(caps, events, m), i);
    }
  }

  /** What an incident suspends belongs to the incident's actor. */
  lemma SuspendedOwn(caps: seq<Held>, events: seq<Event>, i: nat, id: nat)
    requires SuspendedBy(caps, events, i, id)
    ensures
      var s := Run(caps, events);
      i < |s.capabilities| && id < |s.incidents| && s.incidents[id].actor == Some(s.capabilities[i].owner)
  {
    hide Run, Step, TouchOf, IncidentKept, HeldKept;
    var j :| 0 <= j < |events| && SuspendsAt(caps, events, i, j) && ActsFor(TouchAt(caps, events, j), id);
    var before, after := StateAt(caps, events, j), StateAt(caps, events, j + 1);
    assert events[..j + 1] == events[..j] + [events[j]];
    StateLast(caps, events[..j], events[j]);
    StepCapabilities(before, events[j]);
    TouchedRow(before.capabilities, TouchOf(before, events[j]).value, i);
    RunKeeps(caps, events, j + 1);
    KeptRow(after, Run(caps, events), i, id);
  }

  /** A row whose standing changes belongs to the touched actor. */
  lemma TouchedRow(caps: seq<Held>, t: Touch, i: nat)
    requires i < |caps| && |Changed(caps, t.actor, t.change)| > i
    requires Changed(caps, t.actor, t.change)[i].standing != caps[i].standing
    ensures Changed(caps, t.actor, t.change)[i].owner == caps[i].owner == t.actor
  {
    hide AttenuatedLimit;
  }

  lemma KeptRow(s: State, t: State, i: nat, id: nat)
    requires Kept(s, t) && i < |s.capabilities| && id < |s.incidents|
    ensures i < |t.capabilities| && t.capabilities[i].owner == s.capabilities[i].owner
    ensures id < |t.incidents| && t.incidents[id].actor == s.incidents[id].actor
  {
    assert IncidentKept(s.incidents[id], t.incidents[id]) && HeldKept(s.capabilities[i], t.capabilities[i]);
  }

  predicate Reactivated(s: State, t: State, i: nat) { SuspendedRow(s, i) && ActiveRow(t, i) }

  /**
   * Restoring is documented to un-suspend what this incident suspended and nothing more. In every run, closing
   * an incident as a false positive with its authority restored reactivates every row under a suspension of
   * this incident; it reactivates nothing more exactly when no row of the actor is under another suspension,
   * one from the start or put there by another incident or by another part of the program.
   */
  lemma RestoreExact(caps: seq<Held>, events: seq<Event>, id: nat, actor: nat)
    requires id < |Run(caps, events).incidents| && Run(caps, events).incidents[id].actor == Some(actor)
    requires !IsClosed(Run(caps, events).incidents[id].incidentStatus)
    ensures
      var s := Run(caps, events);
      var t := Run(caps, events + [Close(id, true, true, true)]);
      && (forall i | SuspendedBy(caps, events, i, id) :: Reactivated(s, t, i))
      && ((forall i | Reactivated(s, t, i) :: SuspendedBy(caps, events, i, id))
          <==> forall i | 0 <= i < |s.capabilities| && s.capabilities[i].owner == actor ::
                 !SuspendedOtherwise(caps, events, i, id))
  {
    hide Run, SuspendedBy, SuspendedOtherwise;
    StateLast(caps, events, Close(id, true, true, true));
    var s := Run(caps, events);
    var t := Run(caps, events + [Close(id, true, true, true)]);
    assert t == Closed(s, id, FALSE_POSITIVE, true, true);
    forall i: nat ensures Reactivated(s, t, i) <==> i < |s.capabilities| && Standby(s.capabilities[i], actor) {}
    forall i: nat | SuspendedBy(caps, events, i, id) ensures Reactivated(s, t, i) {
      OneCause(caps, events, i, id);
      SuspendedOwn(caps, events, i, id);
    }
    forall i: nat | i < |s.capabilities| && s.capabilities[i].owner == actor
      ensures SuspendedOtherwise(caps, events, i, id) <==> Reactivated(s, t, i) && !SuspendedBy(caps, events, i, id)
    {
      if SuspendedRow(s, i) { SuspensionHasCause(caps, events, i, id); }
      if SuspendedBy(caps, events, i, id) { OneCause(caps, events, i, id); }
      if SuspendedOtherwise(caps, events, i, id) { OtherwiseSuspended(caps, events, i, id); }
    }
  }

  lemma OtherwiseSuspended(caps: seq<Held>, events: seq<Event>, i: nat, id: nat)
    requires SuspendedOtherwise(caps, events, i, id)
    ensures SuspendedRow(Run(caps, events), i)
  {
    hide Run, TouchOf;
    assert events[..|events|] == events && Run(caps, events) == StateAt(caps, events, |events|);
    var j :| -1 <= j < |events| && SuspendedSince(caps, events, i, j);
  }

  // Two reports about one actor with one active row: a minor one, then a serious one.

  const ROW: Held := Held(0, ACTIVE, None, "GRANT")
  const MINOR: Event := Open(Some(0), MANUAL, LOW, true)
  const SERIOUS: Event := Open(Some(0), TRUST_COLLAPSE, HIGH, true)
  const AFTER_MINOR: State := State([Incident(Some(0), MANUAL, LOW, OPEN, None, true)], [ROW])
  const AFTER_BOTH: State :=
    State(AFTER_MINOR.incidents + [Incident(Some(0), TRUST_COLLAPSE, HIGH, OPEN, Some(RESTRICT), true)],
          [ROW.(standing := SUSPENDED)])

  lemma TwoReports()
    ensures StateAt([ROW], [MINOR, SERIOUS], 1) == AFTER_MINOR
    ensures Run([ROW], [MINOR, SERIOUS]) == StateAt([ROW], [MINOR, SERIOUS], 2) == AFTER_BOTH
    ensures TouchAt([ROW], [MINOR, SERIOUS], 1) == Some(Touch(0, Mitigate(RESTRICT), Some(1)))
  {
    hide Run, TouchOf, Step;
    assert [] + [MINOR] == [MINOR] && [MINOR] + [SERIOUS] == [MINOR, SERIOUS];
    StateLast([ROW], [], MINOR);
    NoEvents([ROW]);
    MinorStep();
    StateLast([ROW], [MINOR], SERIOUS);
    SeriousStep();
  }

  lemma NoEvents(caps: seq<Held>)
    ensures Run(caps, []) == State([], caps)
  {
  }

  lemma MinorStep()
    ensures Step(State([], [ROW]), MINOR) == AFTER_MINOR
  {
  }

  lemma SeriousStep()
    ensures Step(AFTER_MINOR, SERIOUS) == AFTER_BOTH
    ensures TouchOf(AFTER_MINOR, SERIOUS) == Some(Touch(0, Mitigate(RESTRICT), Some(1)))
  {
  }

  /**
   * The minor incident, which suspended nothing, is closed as a false positive: the row that the serious one
   * suspended is active again while that one is open, its restriction still on record.
   */
  lemma SiblingUndone()
    ensures
      var before := Run([ROW], [MINOR, SERIOUS]);
      var after := Closed(before, 0, FALSE_POSITIVE, true, true);
      && Reactivated(before, after, 0)
      && SuspendedBy([ROW], [MINOR, SERIOUS], 0, 1) && !SuspendedBy([ROW], [MINOR, SERIOUS], 0, 0)
      && |after.incidents| == 2 && after.incidents[1].incidentStatus == OPEN
      && after.incidents[1].severity == HIGH && after.incidents[1].mitigation == Some(RESTRICT)
  {
    hide Run, TouchOf, Step;
    TwoReports();
    var events := [MINOR, SERIOUS];
    assert SuspendedSince([ROW], events, 0, 1) && SuspendsAt([ROW], events, 0, 1);
    assert !SuspendedRow(StateAt([ROW], events, 1), 0);
    assert !SuspendsAt([ROW], events, 0, 0) && !ActsFor(TouchAt([ROW], events, 1), 0);
  }

  // ---- whether the authority of an actor under a serious incident stays withdrawn ----

  ghost predicate AnyActive(s: State, actor: nat) {
    exists i :: 0 <= i < |s.capabilities| && Withdrawable(s.capabilities[i], actor)
  }

  ghost predicate AnyStandby(s: State, actor: nat) {
    exists i :: 0 <= i < |s.capabilities| && Standby(s.capabilities[i], actor)
  }

  predicate Withdraws(t: Option<Touch>, actor: nat) {
    t.Some? && t.value.actor == actor
    && t.value.change in {Suspend, Mitigate(RESTRICT), Mitigate(REVOKE)}
  }

  /** A new grant, or a restoration that finds something suspended. */
  ghost predicate Wakes(s: State, t: Option<Touch>, actor: nat) {
    t.Some? && t.value.actor == actor
    && (t.value.change.Grant? || (t.value.change == Mitigate(RESTORE) && AnyStandby(s, actor)))
  }

  /** Something was granted or restored to the actor, and nothing withdrew its authority after that. */
  ghost predicate Awake(caps: seq<Held>, events: seq<Event>, actor: nat) {
    exists r :: 0 <= r < |events| && WokenAt(caps, events, r, actor)
  }

  ghost predicate WokenAt(caps: seq<Held>, events: seq<Event>, r: nat, actor: nat)
    requires r < |events|
  {
    && Wakes(StateAt(caps, events, r), TouchAt(caps, events, r), actor)
    && forall j | r < j < |events| :: !Withdraws(TouchAt(caps, events, j), actor)
  }

  ghost predicate EverWithdrawn(caps: seq<Held>, events: seq<Event>, actor: nat) {
    exists j :: 0 <= j < |events| && Withdraws(TouchAt(caps, events, j), actor)
  }

  lemma ChangedActive(s: State, t: Touch, actor: nat)
    ensures
      var after := s.(capabilities := Changed(s.capabilities, t.actor, t.change));
      AnyActive(after, actor) <==>
        !Withdraws(Some(t), actor) && (AnyActive(s, actor) || Wakes(s, Some(t), actor))
  {
    hide AttenuatedLimit;
    var caps, now := s.capabilities, Changed(s.capabilities, t.actor, t.change);
    forall i | 0 <= i < |caps|
      ensures Withdrawable(now[i], actor) <==>
        !Withdraws(Some(t), actor)
        && (Withdrawable(caps[i], actor)
            || (t.actor == actor && t.change == Mitigate(RESTORE) && Standby(caps[i], actor)))
    {
    }
    if t.change.Grant? { assert now[|caps|] == Held(t.actor, ACTIVE, t.change.ceiling, t.change.kind); }
    if i :| 0 <= i < |caps| && Withdrawable(caps[i], actor) {
      if !Withdraws(Some(t), actor) { assert Withdrawable(now[i], actor); }
    }
    if i :| 0 <= i < |caps| && Standby(caps[i], actor) {
      if t.actor == actor && t.change == Mitigate(RESTORE) { assert Withdrawable(now[i], actor); }
    }
  }

  lemma AwakeStep(caps: seq<Held>, events: seq<Event>, e: Event, actor: nat)
    ensures
      var s, t := Run(caps, events), TouchOf(Run(caps, events), e);
      && (Awake(caps, events + [e], actor) <==>
            Wakes(s, t, actor) || (Awake(caps, events, actor) && !Withdraws(t, actor)))
      && (EverWithdrawn(caps, events + [e], actor) <==> EverWithdrawn(caps, events, actor) || Withdraws(t, actor))
  {
    hide Run, TouchOf, Wakes, Withdraws;
    var more, n := events + [e], |events|;
    StateLast(caps, events, e);
    forall r | 0 <= r < n
      ensures TouchAt(caps, more, r) == TouchAt(caps, events, r) && StateAt(caps, more, r) == StateAt(caps, events, r)
    {
      StateExtends(caps, events, e, r);
    }
    if Wakes(Run(caps, events), TouchOf(Run(caps, events), e), actor) { assert WokenAt(caps, more, n, actor); }
    if Awake(caps, events, actor) && !Withdraws(TouchOf(Run(caps, events), e), actor) {
      var r :| 0 <= r < n && WokenAt(caps, events, r, actor);
      assert WokenAt(caps, more, r, actor);
    }
    if r :| 0 <= r < n && WokenAt(caps, more, r, actor) {
      assert !Withdraws(TouchAt(caps, more, n), actor);
      assert forall j | r < j < n :: !Withdraws(TouchAt(caps, more, j), actor);
      assert WokenAt(caps, events, r, actor);
    }
    if EverWithdrawn(caps, events, actor) {
      var j :| 0 <= j < n && Withdraws(TouchAt(caps, events, j), actor);
      assert Withdraws(TouchAt(caps, more, j), actor);
    }
    assert Withdraws(TouchAt(caps, more, n), actor) <==> Withdraws(TouchOf(Run(caps, events), e), actor);
  }

  /** Once an actor's authority was withdrawn at all, some of it is active exactly when the actor was woken since. */
  lemma {:induction false} ActiveExact(caps: seq<Held>, events: seq<Event>, actor: nat)
    requires EverWithdrawn(caps, events, actor)
    ensures AnyActive(Run(caps, events), actor) <==> Awake(caps, events, actor)
  {
    hide Step, TouchOf, Awake, EverWithdrawn, AnyActive, Wakes, Withdraws;
    assert events != [] by { NeverYet(caps, actor); }
    var init, e := events[..|events| - 1], events[|events| - 1];
    assert events == init + [e];
    var s, t := Run(caps, init), TouchOf(Run(caps, init), e);
    AwakeStep(caps, init, e, actor);
    StepCapabilities(s, e);
    ActiveStep(s, Step(s, e), t, actor);
    if EverWithdrawn(caps, init, actor) { ActiveExact(caps, init, actor); }
    NotBoth(s, t, actor);
  }

  lemma NeverYet(caps: seq<Held>, actor: nat)
    ensures !EverWithdrawn(caps, [], actor)
  {
  }

  lemma NotBoth(s: State, t: Option<Touch>, actor: nat)
    ensures !(Wakes(s, t, actor) && Withdraws(t, actor))
  {
  }

  lemma ActiveStep(s: State, s': State, t: Option<Touch>, actor: nat)
    requires s'.capabilities ==
      if t.None? then s.capabilities else Changed(s.capabilities, t.value.actor, t.value.change)
    ensures AnyActive(s', actor) <==> !Withdraws(t, actor) && (AnyActive(s, actor) || Wakes(s, t, actor))
  {
    hide Changed, Standby, Withdrawable;
    if t.Some? { ChangedActive(s, t.value, actor); }
  }

  /** The incident is one whose severity alone withdraws authority, and that was contained or decided on. */
  predicate Withdrawing(i: Incident, actor: nat) {
    i.actor == Some(actor) && i.contained && InitialMitigation(i.severity) != NONE
  }

  /** An incident comes to be such a one only in a step that withdraws the actor's authority. */
  lemma StepWithdraws(s: State, e: Event, k: nat, actor: nat)
    requires k < |Step(s, e).incidents| && Withdrawing(Step(s, e).incidents[k], actor)
    requires k < |s.incidents| ==> !Withdrawing(s.incidents[k], actor)
    ensures Withdraws(TouchOf(s, e), actor)
  {
    hide SeverityRank, ReconcileRecommendation, Applied, Changed;
    if e.Decide? && e.id < |s.incidents| { DecisionCoversContainment(s.incidents[e.id].severity, e.advice); }
  }

  lemma {:induction false} WithdrawnForIt(caps: seq<Held>, events: seq<Event>, k: nat, actor: nat)
    requires k < |Run(caps, events).incidents| && Withdrawing(Run(caps, events).incidents[k], actor)
    ensures EverWithdrawn(caps, events, actor)
  {
    hide Step, TouchOf, Withdrawing, EverWithdrawn, Withdraws;
    if events != [] {
      var init, e := events[..|events| - 1], events[|events| - 1];
      assert events == init + [e];
      AwakeStep(caps, init, e, actor);
      if k < |Run(caps, init).incidents| && Withdrawing(Run(caps, init).incidents[k], actor) {
        WithdrawnForIt(caps, init, k, actor);
      } else {
        StepWithdraws(Run(caps, init), e, k, actor);
      }
    }
  }

  /**
   * In every run whose reports ask for containment: while an incident is serious enough to withdraw authority,
   * closed or not, its actor has a capability active exactly when something was granted or restored to it
   * and nothing has withdrawn its authority since.
   */
  lemma SeriousStoppedExact(caps: seq<Held>, events: seq<Event>, k: nat, actor: nat)
    requires AsksContainment(events) && k < |Run(caps, events).incidents|
    requires
      var i := Run(caps, events).incidents[k];
      i.actor == Some(actor) && InitialMitigation(i.severity) != NONE
    ensures AnyActive(Run(caps, events), actor) <==> Awake(caps, events, actor)
  {
    hide Run, Awake, EverWithdrawn, AnyActive;
    AllContained(caps, events);
    WithdrawnForIt(caps, events, k, actor);
    ActiveExact(caps, events, actor);
  }

  // ---- a false alarm ----

  /**
   * A high report contained and then closed as a false positive with its authority restored: the standings
   * are those before the report exactly when the actor had nothing suspended then, and the rows themselves
   * exactly when it also had no ceiling to halve.
   */
  lemma FalseAlarmUndone(s: State, actor: nat, kind: IncidentType)
    requires Contains(s, actor, kind, HIGH)
    ensures
      var (t, id) := Opened(s, Some(actor), kind, HIGH, true);
      && id < |t.incidents| && ClosingFaultOf(t, id, FALSE_POSITIVE, true, true).None?
      && var u := Closed(t, id, FALSE_POSITIVE, true, true);
         && (SameStandings(u.capabilities, s.capabilities) <==> NoneSuspended(s.capabilities, actor))
         && (u.capabilities == s.capabilities <==>
               NoneSuspended(s.capabilities, actor) && NothingToHalve(s.capabilities, actor))
  {
    hide SeverityRank, SameStandings, NoneSuspended, NothingToHalve, Applied;
    ContainedThenRestored(s.capabilities, actor);
  }

  /** An actor whose one row was suspended for another reason has it back after a false alarm. */
  lemma OlderSuspensionLifted()
    ensures
      var suspended := [Held(0, SUSPENDED, None, "GRANT")];
      var (t, id) := Opened(State([], suspended), Some(0), MANUAL, HIGH, true);
      id < |t.incidents| && t.capabilities == suspended
      && Closed(t, id, FALSE_POSITIVE, true, true).capabilities == [Held(0, ACTIVE, None, "GRANT")]
  {
  }

  // ---- the service ----

  class IncidentService {
    var incidents: seq<Incident>
    var capabilities: seq<Held>

    ghost function Contents(): State
      reads this
    {
      State(incidents, capabilities)
    }

    ghost predicate Valid()
      reads this
    {
      Sound(Contents())
    }

    constructor (held: seq<Held>)
      ensures Valid() && Contents() == State([], held)
    {
      incidents, capabilities := [], held;
    }

    /** One capability row at a time; answers how many rows were changed. */
    method ApplyMitigation(actor: nat, m: Mitigation) returns (affected: nat)
      modifies this`capabilities
      ensures capabilities == Applied(old(capabilities), actor, m)
      ensures affected == 0 <==> capabilities == old(capabilities)
    {
      affected := 0;
      var k := 0;
      while k < |capabilities|
        invariant 0 <= k <= |capabilities| == |old(capabilities)|
        invariant forall i | 0 <= i < k :: capabilities[i] == Mitigated(old(capabilities)[i], actor, m)
        invariant forall i | k <= i < |capabilities| :: capabilities[i] == old(capabilities)[i]
        invariant affected == 0 <==> forall i | 0 <= i < k :: capabilities[i] == old(capabilities)[i]
      {
        var c := Mitigated(capabilities[k], actor, m);
        if c != capabilities[k] { affected := affected + 1; }
        capabilities := capabilities[k := c];
        k := k + 1;
      }
    }

    method Contain(id: nat)
      requires id < |incidents|
      modifies this
      ensures Contents() == Contained(old(Contents()), id)
    {
      var i := incidents[id];
      var m := InitialMitigation(i.severity);
      if m != NONE && i.actor.Some? {
        var applied := ApplyMitigation(i.actor.value, m);
        i := i.(mitigation := Some(m));
      }
      incidents := incidents[id := i.(contained := true)];
    }

    method OpenIncident(actor: Option<nat>, kind: IncidentType, severity: Severity, contain: bool) returns (id: nat)
      requires Valid()
      modifies this
      ensures Valid() && Kept(old(Contents()), Contents())
      ensures (Contents(), id) == Opened(old(Contents()), actor, kind, severity, contain)
    {
      hide Sound, Kept, SeverityRank;
      OpenedSound(Contents(), actor, kind, severity, contain);
      if actor.Some? {
        var existing := LiveIncident(incidents, |incidents|, actor.value, kind);
        if existing.Some? {
          id := existing.value;
          if Above(SeverityRank(severity), SeverityRank(incidents[id].severity)) {
            incidents := incidents[id := incidents[id].(severity := severity)];
            Contain(id);
          }
          return;
        }
      }
      id := |incidents|;
      incidents := incidents + [Incident(actor, kind, severity, OPEN, None, false)];
      if contain { Contain(id); }
    }

    method InvestigateIncident(id: nat) returns (ok: bool)
      requires Valid() && id < |incidents|
      modifies this`incidents
      ensures Valid() && Contents() == Investigated(old(Contents()), id)
      ensures ok <==> !IsClosed(old(incidents)[id].incidentStatus)
    {
      hide Sound;
      InvestigatedSound(Contents(), id);
      if IsClosed(incidents[id].incidentStatus) { return false; }
      if CanTransition(incidents[id].incidentStatus, INVESTIGATING) {
        incidents := incidents[id := incidents[id].(incidentStatus := INVESTIGATING)];
      }
      ok := true;
    }

    method DecideIncident(id: nat, advice: Option<Advice>) returns (reconciled: Option<Reconciliation>)
      requires Valid() && id < |incidents|
      modifies this
      ensures Valid() && Contents() == Decided(old(Contents()), id, advice)
      ensures reconciled.None? <==> IsClosed(old(incidents)[id].incidentStatus)
      ensures reconciled.Some? ==>
        Restrictiveness(reconciled.value.action) >= Restrictiveness(DeterministicAction(old(incidents)[id].severity))
    {
      hide Sound, ReconcileRecommendation;
      DecidedSound(Contents(), id, advice);
      var i := incidents[id];
      if IsClosed(i.incidentStatus) { return None; }
      AdviceOnlyTightens(DeterministicAction(i.severity), advice);
      var r := ReconcileRecommendation(DeterministicAction(i.severity), advice);
      var m := MitigationFor(r.action);
      if i.actor.Some? && m != NONE {
        var affected := ApplyMitigation(i.actor.value, m);
      }
      var status := if CanTransition(i.incidentStatus, MITIGATED) && m != NONE then MITIGATED else i.incidentStatus;
      incidents := incidents[id := i.(mitigation := Some(m), incidentStatus := status, contained := true)];
      reconciled := Some(r);
    }

    method ResolveIncident(id: nat, to: IncidentStatus, causeGiven: bool, restore: bool)
      returns (fault: Option<ClosingFault>)
      requires Valid() && id < |incidents| && IsClosed(to)
      modifies this
      ensures Valid() && Contents() == Closed(old(Contents()), id, to, causeGiven, restore)
      ensures fault == ClosingFaultOf(old(Contents()), id, to, causeGiven, restore)
      ensures fault.None? && restore && old(incidents)[id].actor.Some? ==> to == FALSE_POSITIVE
    {
      hide Sound;
      ClosedSound(Contents(), id, to, causeGiven, restore);
      var i := incidents[id];
      if !CanTransition(i.incidentStatus, to) { return Some(NotAllowed); }
      if !causeGiven { return Some(NoRootCause); }
      if restore && i.actor.Some? {
        if to != FALSE_POSITIVE { return Some(MayNotRestore); }
        var restored := ApplyMitigation(i.actor.value, RESTORE);
      }
      incidents := incidents[id :=
        i.(incidentStatus := to, mitigation := if restore then Some(RESTORE) else i.mitigation)];
      fault := None;
    }
  }
}
