/** Ranks, transitions and the rule that advice may only tighten (`incident-types.ts`). */
module IncidentTypes {
  import opened Common

  datatype IncidentStatus = OPEN | INVESTIGATING | MITIGATED | FALSE_POSITIVE | RESOLVED

  /** Stored as text: one of four levels, or something else. */
  datatype Severity = LOW | MEDIUM | HIGH | CRITICAL | UnknownSeverity(name: string)

  datatype IncidentType =
    | COORDINATION_DETECTED
    | TRUST_COLLAPSE
    | ENFORCEMENT_FAILURE
    | ASSURANCE_LAPSE
    | ANOMALOUS_VELOCITY
    | MANUAL

  datatype RecommendedAction = ALLOW | LIMIT | REVIEW | BLOCK

  /** What an investigator wrote: an action's name, or any other text. */
  datatype Advice = Action(action: RecommendedAction) | OtherText(text: string)

  datatype Mitigation = NONE | RESTORE | RESTRICT | REVOKE

  /** Names every JavaScript object answers to, so that looking one up in a rank table finds no number. */
  const INHERITED_NAMES: seq<string> := [
    "constructor", "toString", "toLocaleString", "valueOf", "hasOwnProperty", "isPrototypeOf",
    "propertyIsEnumerable", "__proto__", "__defineGetter__", "__defineSetter__", "__lookupGetter__",
    "__lookupSetter__"
  ]

  predicate Inherited(name: string) { name in INHERITED_NAMES }

  /** A rank, or nothing when the lookup yields what is not a number: it then compares false with everything. */
  type Rank = Option<nat>

  predicate Above(a: Rank, b: Rank) { a.Some? && b.Some? && a.value > b.value }

  function SeverityRank(s: Severity): Rank {
    match s
    case LOW => Some(0)
    case MEDIUM => Some(1)
    case HIGH => Some(2)
    case CRITICAL => Some(3)
    case UnknownSeverity(name) => if Inherited(name) then None else Some(3)
  }

  /** The first severity is strictly graver; an unrecognised one counts as CRITICAL, unless its name is inherited. */
  predicate Graver(s: Severity, t: Severity) {
    match s
    case LOW => false
    case MEDIUM => t == LOW
    case HIGH => t == LOW || t == MEDIUM
    case CRITICAL => t == LOW || t == MEDIUM || t == HIGH
    case UnknownSeverity(name) => !Inherited(name) && (t == LOW || t == MEDIUM || t == HIGH)
  }

  /** Ranks compare as gravity does. */
  lemma SeverityOrder(s: Severity, t: Severity)
    ensures Above(SeverityRank(s), SeverityRank(t)) <==> Graver(s, t)
  {
    hide Inherited;
  }

  function Restrictiveness(a: RecommendedAction): nat {
    match a case ALLOW => 0 case LIMIT => 1 case REVIEW => 2 case BLOCK => 3
  }

  function ActionRank(a: Advice): Rank {
    match a
    case Action(x) => Some(Restrictiveness(x))
    case OtherText(text) => if Inherited(text) then None else Some(3)
  }

  function ActionOfRank(r: nat): RecommendedAction {
    if r == 0 then ALLOW else if r == 1 then LIMIT else if r == 2 then REVIEW else BLOCK
  }

  datatype Reconciliation = Reconciliation(
    action: RecommendedAction, aiChangedOutcome: bool, aiAttemptedToWiden: bool)

  function ReconcileRecommendation(deterministic: RecommendedAction, advice: Option<Advice>): Reconciliation {
    var floor := Some(Restrictiveness(deterministic));
    if advice.None? then Reconciliation(deterministic, false, false)
    else
      var ai := ActionRank(advice.value);
      if Above(ai, floor) then Reconciliation(ActionOfRank(ai.value), true, false)
      else if Above(floor, ai) then Reconciliation(deterministic, false, true)
      else Reconciliation(deterministic, false, false)
  }

  /** The most restrictive reading of the advice, as its documentation describes it. */
  function ReadStrictly(advice: Option<Advice>): nat {
    match advice
    case None => 0
    case Some(Action(x)) => Restrictiveness(x)
    case Some(OtherText(_)) => 3
  }

  /**
   * The outcome is never below the deterministic floor, is one of the two suggestions, and records
   * being tightened or overruled. It is the stricter of the two, with unreadable advice read as BLOCK,
   * except that advice spelt like an inherited name counts as agreement.
   */
  lemma AdviceOnlyTightens(floor: RecommendedAction, advice: Option<Advice>)
    ensures
      var r := ReconcileRecommendation(floor, advice);
      && Restrictiveness(r.action) >= Restrictiveness(floor)
      && (r.aiChangedOutcome <==> r.action != floor)
      && (r.aiAttemptedToWiden <==> advice.Some? && advice.value.Action?
                                    && Restrictiveness(advice.value.action) < Restrictiveness(floor))
      && (Restrictiveness(r.action) == Max(Restrictiveness(floor), ReadStrictly(advice))
          <==> !(advice.Some? && advice.value.OtherText? && Inherited(advice.value.text) && floor != BLOCK))
  {
    hide Inherited;
  }

  /** Such advice exists: garbled text that leaves an ALLOW floor at ALLOW. */
  lemma GarbledAdviceCanAgree() returns (advice: Advice)
    ensures advice.OtherText?
    ensures ReconcileRecommendation(ALLOW, Some(advice)) == Reconciliation(ALLOW, false, false)
  {
    assert INHERITED_NAMES[0] == "constructor";
    advice := OtherText("constructor");
  }

  predicate CanTransition(from: IncidentStatus, to: IncidentStatus) {
    match from
    case OPEN => to == INVESTIGATING || to == MITIGATED || to == FALSE_POSITIVE || to == RESOLVED
    case INVESTIGATING => to == MITIGATED || to == FALSE_POSITIVE || to == RESOLVED
    case MITIGATED => to == RESOLVED || to == FALSE_POSITIVE
    case _ => false
  }

  /** How far along an incident is: opened, investigated, mitigated, or closed either way. */
  function Progress(s: IncidentStatus): nat {
    match s case OPEN => 0 case INVESTIGATING => 1 case MITIGATED => 2 case FALSE_POSITIVE => 3 case RESOLVED => 3
  }

  /** An incident may move exactly to where it is further along, so never out of either closed status. */
  lemma TransitionsForward(from: IncidentStatus, to: IncidentStatus)
    ensures CanTransition(from, to) <==> Progress(from) < Progress(to)
  {
  }

  predicate IsClosed(s: IncidentStatus) { s == RESOLVED || s == FALSE_POSITIVE }

  /** What a severity justifies before anything is investigated; an unrecognised one, the most. */
  function InitialMitigation(s: Severity): Mitigation {
    match s
    case LOW => NONE
    case MEDIUM => NONE
    case HIGH => RESTRICT
    case CRITICAL => REVOKE
    case UnknownSeverity(_) => REVOKE
  }

  function DeterministicAction(s: Severity): RecommendedAction {
    match s
    case LOW => ALLOW
    case MEDIUM => LIMIT
    case HIGH => REVIEW
    case CRITICAL => BLOCK
    case UnknownSeverity(_) => BLOCK
  }

  function MitigationFor(a: RecommendedAction): Mitigation {
    match a case BLOCK => REVOKE case REVIEW => RESTRICT case LIMIT => RESTRICT case ALLOW => NONE
  }

  /** How much authority a recorded mitigation withholds; nothing recorded, none. */
  function Withheld(m: Option<Mitigation>): nat {
    match m case Some(RESTRICT) => 1 case Some(REVOKE) => 2 case _ => 0
  }

  /** Whatever the advice, the mitigation decided on withholds at least what the severity alone justifies. */
  lemma DecisionCoversContainment(s: Severity, advice: Option<Advice>)
    ensures
      Withheld(Some(MitigationFor(ReconcileRecommendation(DeterministicAction(s), advice).action)))
      >= Withheld(Some(InitialMitigation(s)))
  {
    AdviceOnlyTightens(DeterministicAction(s), advice);
  }

  /** Text that is no action's name and no inherited one: read as the strictest advice. */
  predicate Unreadable(advice: Option<Advice>) {
    advice.Some? && advice.value.OtherText? && !Inherited(advice.value.text)
  }

  predicate MostSerious(s: Severity) { s == CRITICAL || s.UnknownSeverity? }

  /**
   * What is decided, severity by severity and advice by advice. Blocking needs the gravest severity, the advice to
   * block or unreadable advice; allowing needs a LOW incident that nobody advised against; and authority is revoked
   * with a block, left alone with an ALLOW, and restricted with everything between.
   */
  lemma DecisionExact(s: Severity, advice: Option<Advice>)
    ensures
      var action := ReconcileRecommendation(DeterministicAction(s), advice).action;
      && (action == BLOCK <==> MostSerious(s) || advice == Some(Action(BLOCK)) || Unreadable(advice))
      && (action == REVIEW <==>
            !MostSerious(s) && advice != Some(Action(BLOCK)) && !Unreadable(advice)
            && (s == HIGH || advice == Some(Action(REVIEW))))
      && (action == ALLOW <==>
            s == LOW && advice != Some(Action(BLOCK)) && advice != Some(Action(REVIEW))
            && advice != Some(Action(LIMIT)) && !Unreadable(advice))
      && (MitigationFor(action) == REVOKE <==> action == BLOCK)
      && (MitigationFor(action) == NONE <==> action == ALLOW)
      && (MitigationFor(action) == RESTRICT <==> action == REVIEW || action == LIMIT)
  {
    hide Inherited;
  }

  /** Without advice the severity alone decides. */
  lemma UnadvisedDecision(s: Severity)
    ensures
      var action := ReconcileRecommendation(DeterministicAction(s), None).action;
      action == if s == LOW then ALLOW else if s == MEDIUM then LIMIT else if s == HIGH then REVIEW else BLOCK
  {
    DecisionExact(s, None);
  }
}
