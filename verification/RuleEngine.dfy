/** The native rule evaluator: first match by ascending priority (`rule-engine.ts`). */
module RuleEngine {
  import opened Common
  import opened Sorting
  import opened CapabilityTypes

  datatype ActionType =
    CLAIM | VOTE | MINT | TRADE | BORROW | TRANSFER | API_REQUEST | X402_PAYMENT | AGENT_DELEGATION

  datatype TrustBand =
    VERIFIED_LOW | ESTABLISHED_LOW | UNCERTAIN | HIGH_RISK | CRITICAL | INSUFFICIENT_EVIDENCE

  datatype AuthorizationResult = ALLOW | LIMIT | CHALLENGE | REVIEW | BLOCK

  /** A stored effect is text: one of the results, or something nobody wrote a mapping for. */
  datatype Effect = Known(result: AuthorizationResult) | Unknown(text: string)

  datatype Rule = Rule(
    priority: int,
    actionType: Option<ActionType>,
    minAmount: Option<string>,
    maxAmount: Option<string>,
    trustBands: seq<TrustBand>,
    maxCoordinationRisk: Option<real>,
    minBehaviorIntegrity: Option<real>,
    requiresLiveAssurance: Option<bool>,
    effect: Effect,
    reasonCode: string,
    limitAmount: Option<string>,
    limitFrequency: Option<int>,
    limitWindowSeconds: Option<int>,
    capabilityTtlSeconds: Option<int>)

  /** What policy sees of a request. */
  datatype Request = Request(
    actionType: ActionType,
    amount: Option<string>,
    band: TrustBand,
    coordinationRisk: Option<real>,
    behaviorIntegrity: Option<real>,
    hasLiveLease: bool)

  datatype Outcome = Outcome(
    result: AuthorizationResult,
    reasonCode: string,
    rulePriority: Option<int>,
    limits: Option<Limits>,
    attenuated: bool,
    requiredAssurance: Option<string>)

  // ---- matching ----

  predicate AmountOk(rule: Rule, request: Request) {
    var amount, min, max := ParseAmount(request.amount), ParseAmount(rule.minAmount), ParseAmount(rule.maxAmount);
    && (min.Some? ==> amount.Some? && amount.value >= min.value)
    && (max.Some? ==> amount.Some? && amount.value <= max.value)
  }

  /** A missing measurement never satisfies a bound. */
  predicate TrustOk(rule: Rule, request: Request) {
    && (rule.maxCoordinationRisk.Some? ==>
          request.coordinationRisk.Some? && request.coordinationRisk.value <= rule.maxCoordinationRisk.value)
    && (rule.minBehaviorIntegrity.Some? ==>
          request.behaviorIntegrity.Some? && request.behaviorIntegrity.value >= rule.minBehaviorIntegrity.value)
  }

  predicate RuleMatches(rule: Rule, request: Request) {
    && (rule.actionType.Some? ==> rule.actionType.value == request.actionType)
    && (rule.trustBands != [] ==> request.band in rule.trustBands)
    && AmountOk(rule, request)
    && TrustOk(rule, request)
    && (rule.requiresLiveAssurance.Some? ==> rule.requiresLiveAssurance.value == request.hasLiveLease)
  }

  predicate ByPriority(a: Rule, b: Rule) { a.priority <= b.priority }

  lemma ByPriorityOrder()
    ensures TotalPreorder(ByPriority)
  {
  }

  function FirstMatch(rules: seq<Rule>, request: Request): Option<Rule> {
    if rules == [] then None
    else if RuleMatches(rules[0], request) then Some(rules[0])
    else FirstMatch(rules[1..], request)
  }

  function SelectRule(rules: seq<Rule>, request: Request): Option<Rule> {
    FirstMatch(Sort(rules, ByPriority), request)
  }

  // ---- outcomes ----

  function LimitsFor(rule: Rule, now: int): Limits {
    Limits(rule.limitAmount, rule.limitFrequency, rule.limitWindowSeconds, [],
           if rule.capabilityTtlSeconds.None? then None else Some(now + rule.capabilityTtlSeconds.value * 1000))
  }

  function ApplyRule(rule: Option<Rule>, request: Request, now: int): Outcome {
    if rule.None? then Outcome(REVIEW, "NO_MATCHING_POLICY_RULE", None, None, false, None)
    else
      var r := rule.value;
      match r.effect
      case Known(ALLOW) => Outcome(ALLOW, r.reasonCode, Some(r.priority), Some(LimitsFor(r, now)), false, None)
      case Known(LIMIT) =>
        var attenuated := !WithinAmountLimit(request.amount, r.limitAmount);
        Outcome(LIMIT, r.reasonCode, Some(r.priority), Some(LimitsFor(r, now)), attenuated, None)
      case Known(CHALLENGE) => Outcome(CHALLENGE, r.reasonCode, Some(r.priority), None, false, Some("SELFIE_CHECK"))
      case Known(REVIEW) => Outcome(REVIEW, r.reasonCode, Some(r.priority), None, false, None)
      case Known(BLOCK) => Outcome(BLOCK, r.reasonCode, Some(r.priority), None, false, None)
      case Unknown(_) => Outcome(REVIEW, "UNKNOWN_RULE_EFFECT", Some(r.priority), None, false, None)
  }

  function EvaluateRules(rules: seq<Rule>, request: Request, now: int): Outcome {
    ApplyRule(SelectRule(rules, request), request, now)
  }

  predicate Permissive(o: Outcome) { o.result == ALLOW || o.result == LIMIT }

  predicate PermissiveRule(r: Rule) { r.effect == Known(ALLOW) || r.effect == Known(LIMIT) }

  // ---- which rule is chosen ----

  lemma {:induction false} FirstMatchExact(rules: seq<Rule>, request: Request)
    ensures FirstMatch(rules, request).None? <==> forall r | r in rules :: !RuleMatches(r, request)
    ensures FirstMatch(rules, request).Some? ==>
      exists i :: 0 <= i < |rules| && rules[i] == FirstMatch(rules, request).value && RuleMatches(rules[i], request)
        && forall j | 0 <= j < i :: !RuleMatches(rules[j], request)
  {
    if rules != [] {
      Uncons(rules);
      FirstMatchExact(rules[1..], request);
      if !RuleMatches(rules[0], request) && FirstMatch(rules, request).Some? {
        var i :| 0 <= i < |rules[1..]| && rules[1..][i] == FirstMatch(rules, request).value
          && RuleMatches(rules[1..][i], request) && forall j | 0 <= j < i :: !RuleMatches(rules[1..][j], request);
        forall j | 0 <= j < i + 1 ensures !RuleMatches(rules[j], request) {
          if j > 0 { assert rules[j] == rules[1..][j - 1]; }
        }
        assert rules[i + 1] == rules[1..][i];
      }
    }
  }

  /** The chosen rule matches and no matching rule has a lower priority number; none only if none match. */
  lemma SelectRuleLeast(rules: seq<Rule>, request: Request)
    ensures SelectRule(rules, request).None? <==> forall r | r in rules :: !RuleMatches(r, request)
    ensures SelectRule(rules, request).Some? ==>
      var chosen := SelectRule(rules, request).value;
      && chosen in rules && RuleMatches(chosen, request)
      && forall r | r in rules && RuleMatches(r, request) :: chosen.priority <= r.priority
  {
    var ordered := Sort(rules, ByPriority);
    ByPriorityOrder();
    SortCorrect(rules, ByPriority);
    SortMembers(rules, ByPriority);
    FirstMatchExact(ordered, request);
    if SelectRule(rules, request).Some? {
      var chosen := SelectRule(rules, request).value;
      var i :| 0 <= i < |ordered| && ordered[i] == chosen && RuleMatches(ordered[i], request)
        && forall j | 0 <= j < i :: !RuleMatches(ordered[j], request);
      assert chosen in ordered;
      forall r | r in rules && RuleMatches(r, request) ensures chosen.priority <= r.priority {
        assert r in ordered;
        var j :| 0 <= j < |ordered| && ordered[j] == r;
        assert j == i || ByPriority(ordered[i], ordered[j]);
      }
    }
  }

  ghost predicate UniquePriorities(rules: seq<Rule>) {
    forall i, j | 0 <= i < j < |rules| :: rules[i].priority != rules[j].priority
  }

  /** With unique priorities the order in which the rules are stored cannot change any outcome. */
  lemma OrderIrrelevant(rules: seq<Rule>, shuffled: seq<Rule>, request: Request, now: int)
    requires UniquePriorities(rules) && multiset(rules) == multiset(shuffled)
    ensures EvaluateRules(rules, request, now) == EvaluateRules(shuffled, request, now)
  {
    ByPriorityOrder();
    forall a, b | a in rules && b in rules && ByPriority(a, b) && ByPriority(b, a) ensures a == b {
      var i :| 0 <= i < |rules| && rules[i] == a;
      var j :| 0 <= j < |rules| && rules[j] == b;
    }
    SortPermutation(rules, shuffled, ByPriority);
  }

  /** Without unique priorities it can: two rules of one priority, read in two orders. */
  lemma SharedPriorityMatters() returns (rules: seq<Rule>, shuffled: seq<Rule>, request: Request)
    ensures multiset(rules) == multiset(shuffled)
    ensures EvaluateRules(rules, request, 0).result != EvaluateRules(shuffled, request, 0).result
  {
    var allow := Rule(1, None, None, None, [], None, None, None, Known(ALLOW), "", None, None, None, None);
    var block := allow.(effect := Known(BLOCK));
    rules, shuffled := [allow, block], [block, allow];
    request := Request(CLAIM, None, UNCERTAIN, None, None, false);
    assert rules[1..] == [block] && shuffled[1..] == [allow];
    assert Sort([block], ByPriority) == [block] && Sort([allow], ByPriority) == [allow];
    assert Sort(rules, ByPriority) == rules && Sort(shuffled, ByPriority) == shuffled;
  }

  /** Only a matched rule that says so permits anything, and exactly then is there something to grant. */
  lemma FailClosed(rules: seq<Rule>, request: Request, now: int)
    ensures
      var o, chosen := EvaluateRules(rules, request, now), SelectRule(rules, request);
      && (Permissive(o) <==> chosen.Some? && PermissiveRule(chosen.value))
      && (o.limits.Some? <==> Permissive(o))
      && (o.limits.Some? ==>
            o.limits.value.amountLimit == chosen.value.limitAmount
            && o.limits.value.frequencyLimit == chosen.value.limitFrequency
            && (o.limits.value.expiresAt.Some? <==> chosen.value.capabilityTtlSeconds.Some?)
            && (o.limits.value.expiresAt.Some? ==>
                  o.limits.value.expiresAt.value - now == chosen.value.capabilityTtlSeconds.value * 1000))
      && (o.attenuated ==> o.result == LIMIT && !WithinAmountLimit(request.amount, o.limits.value.amountLimit))
      && o.requiredAssurance == (if o.result == CHALLENGE then Some("SELFIE_CHECK") else None)
      && o.rulePriority == (if chosen.Some? then Some(chosen.value.priority) else None)
  {
  }

  /** The rule that decides: it matches, and every other matching rule has a larger priority number. */
  ghost predicate Decisive(rules: seq<Rule>, request: Request, r: Rule) {
    && r in rules && RuleMatches(r, request)
    && forall s | s in rules && s != r && RuleMatches(s, request) :: r.priority < s.priority
  }

  lemma DecisiveSelected(rules: seq<Rule>, request: Request, r: Rule)
    requires Decisive(rules, request, r)
    ensures SelectRule(rules, request) == Some(r)
  {
    hide RuleMatches, SelectRule;
    SelectRuleLeast(rules, request);
  }

  /** What a matching rule means, measurement by measurement. */
  lemma MatchesExactly(r: Rule, q: Request)
    ensures RuleMatches(r, q) <==>
      && (r.actionType == None || r.actionType == Some(q.actionType))
      && (r.trustBands == [] || q.band in r.trustBands)
      && (forall least: nat | ParseAmount(r.minAmount) == Some(least) ::
            exists n: nat :: ParseAmount(q.amount) == Some(n) && n >= least)
      && (forall most: nat | ParseAmount(r.maxAmount) == Some(most) ::
            exists n: nat :: ParseAmount(q.amount) == Some(n) && n <= most)
      && (r.maxCoordinationRisk.Some? ==>
            q.coordinationRisk.Some? && q.coordinationRisk.value <= r.maxCoordinationRisk.value)
      && (r.minBehaviorIntegrity.Some? ==>
            q.behaviorIntegrity.Some? && q.behaviorIntegrity.value >= r.minBehaviorIntegrity.value)
      && (r.requiresLiveAssurance == None || r.requiresLiveAssurance == Some(q.hasLiveLease))
  {
    hide ParseAmount;
  }

  // ---- forgetting a measurement ----

  function ForgetRisk(q: Request): Request { q.(coordinationRisk := None) }

  function ForgetIntegrity(q: Request): Request { q.(behaviorIntegrity := None) }

  /** Every rule that looks at coordination risk permits something. */
  ghost predicate RiskOnlyPermits(rules: seq<Rule>) {
    forall r | r in rules && r.maxCoordinationRisk.Some? :: PermissiveRule(r)
  }

  ghost predicate IntegrityOnlyPermits(rules: seq<Rule>) {
    forall r | r in rules && r.minBehaviorIntegrity.Some? :: PermissiveRule(r)
  }

  /** `q` matches no rule that `p` does not, and loses only rules that permit. */
  ghost predicate Forgets(rules: seq<Rule>, p: Request, q: Request) {
    && (forall r | r in rules && RuleMatches(r, q) :: RuleMatches(r, p))
    && (forall r | r in rules && RuleMatches(r, p) && !PermissiveRule(r) :: RuleMatches(r, q))
  }

  lemma {:induction false} ForgettingKeepsMatch(rules: seq<Rule>, p: Request, q: Request)
    requires Forgets(rules, p, q)
    requires FirstMatch(rules, p).None? || !PermissiveRule(FirstMatch(rules, p).value)
    ensures FirstMatch(rules, q) == FirstMatch(rules, p)
  {
    if rules != [] {
      Uncons(rules);
      if !RuleMatches(rules[0], p) { ForgettingKeepsMatch(rules[1..], p, q); }
    }
  }

  lemma ForgettingKeepsOutcome(rules: seq<Rule>, p: Request, q: Request, now: int)
    requires Forgets(rules, p, q) && p.amount == q.amount
    requires !Permissive(EvaluateRules(rules, p, now))
    ensures EvaluateRules(rules, q, now) == EvaluateRules(rules, p, now)
  {
    ByPriorityOrder();
    SortMembers(rules, ByPriority);
    ForgettingKeepsMatch(Sort(rules, ByPriority), p, q);
  }

  /** Losing the coordination-risk measurement leaves every non-permissive outcome exactly as it was. */
  lemma ForgettingRiskPermitsNothing(rules: seq<Rule>, request: Request, now: int)
    requires RiskOnlyPermits(rules) && !Permissive(EvaluateRules(rules, request, now))
    ensures EvaluateRules(rules, request.(coordinationRisk := None), now) == EvaluateRules(rules, request, now)
  {
    ForgettingKeepsOutcome(rules, request, ForgetRisk(request), now);
  }

  /** So does losing the behaviour-integrity measurement. */
  lemma ForgettingIntegrityPermitsNothing(rules: seq<Rule>, request: Request, now: int)
    requires IntegrityOnlyPermits(rules) && !Permissive(EvaluateRules(rules, request, now))
    ensures EvaluateRules(rules, request.(behaviorIntegrity := None), now) == EvaluateRules(rules, request, now)
  {
    ForgettingKeepsOutcome(rules, request, ForgetIntegrity(request), now);
  }

  /** The hypothesis is needed: behind a rule that blocks on a measurement, forgetting it permits. */
  lemma ForgettingCanPermit() returns (rules: seq<Rule>, request: Request)
    ensures UniquePriorities(rules) && !RiskOnlyPermits(rules)
    ensures EvaluateRules(rules, request, 0).result == BLOCK
    ensures EvaluateRules(rules, ForgetRisk(request), 0).result == ALLOW
  {
    var allow := Rule(2, None, None, None, [], None, None, None, Known(ALLOW), "", None, None, None, None);
    var block := allow.(priority := 1, maxCoordinationRisk := Some(1.0), effect := Known(BLOCK));
    rules := [block, allow];
    request := Request(CLAIM, None, UNCERTAIN, Some(0.5), None, false);
    assert rules[1..] == [allow] && Sort([allow], ByPriority) == [allow];
    assert Sort(rules, ByPriority) == rules;
    assert block in rules;
    assert FirstMatch([allow], ForgetRisk(request)) == Some(allow);
    assert FirstMatch(rules, ForgetRisk(request)) == Some(allow);
  }

  // ---- reading a list of rules in parts ----

  lemma {:induction false} FirstMatchConcat(a: seq<Rule>, b: seq<Rule>, q: Request)
    ensures FirstMatch(a + b, q) == if FirstMatch(a, q).Some? then FirstMatch(a, q) else FirstMatch(b, q)
  {
    if a == [] {
      assert a + b == b;
    } else {
      assert (a + b)[1..] == a[1..] + b;
      FirstMatchConcat(a[1..], b, q);
    }
  }

  lemma {:induction false} SortOrdered(rules: seq<Rule>)
    requires forall i | 1 <= i < |rules| :: rules[i - 1].priority < rules[i].priority
    ensures Sort(rules, ByPriority) == rules
    ensures UniquePriorities(rules)
  {
    if rules != [] {
      var rest := rules[1..];
      forall i | 1 <= i < |rest| ensures rest[i - 1].priority < rest[i].priority {
        assert rules[i].priority < rules[i + 1].priority;
      }
      SortOrdered(rest);
      forall j | 1 <= j < |rules| ensures rules[0].priority < rules[j].priority { Ascends(rules, j); }
      forall i, j | 0 <= i < j < |rules| ensures rules[i].priority != rules[j].priority {
        if i > 0 { assert rest[i - 1].priority != rest[j - 1].priority; }
      }
      assert rules == [rules[0]] + rest;
    }
  }

  lemma {:induction false} Ascends(rules: seq<Rule>, j: nat)
    requires forall i | 1 <= i < |rules| :: rules[i - 1].priority < rules[i].priority
    requires 1 <= j < |rules|
    ensures rules[0].priority < rules[j].priority
  {
    if j > 1 { Ascends(rules, j - 1); }
  }
}
