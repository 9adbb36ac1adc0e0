/** The seeded authorization policy (`policy-rules.ts`) and what it can permit. */
module PolicyRules {
  import opened Common
  import opened Sorting
  import opened CapabilityTypes
  import opened RuleEngine

  const UNITS_PER_USDC: nat := 1_000_000

  /** Whole dollars as a base-unit string. */
  function Usdc(whole: nat): string { DecimalText(whole * UNITS_PER_USDC) }

  /** 10-29: hard stops, before anything else. */
  function HardStops(): seq<Rule> {
    [
      Rule(10, None, None, None, [CRITICAL], None, None, None,
           Known(BLOCK), "TRUST_BAND_CRITICAL", None, None, None, None),
      Rule(20, None, None, None, [INSUFFICIENT_EVIDENCE], None, None, None,
           Known(REVIEW), "INSUFFICIENT_EVIDENCE", None, None, None, None)
    ]
  }

  /** 30-39: borrowing and large transfers. */
  function HighValue(): seq<Rule> {
    [
      Rule(30, Some(BORROW), None, None, [], None, None, Some(false),
           Known(CHALLENGE), "BORROW_REQUIRES_ASSURANCE", None, None, None, None),
      Rule(31, Some(TRANSFER), Some(Usdc(5000)), None, [], None, None, Some(false),
           Known(CHALLENGE), "HIGH_VALUE_TRANSFER_REQUIRES_ASSURANCE", None, None, None, None),
      Rule(32, Some(TRANSFER), Some(Usdc(1000)), None, [], None, Some(0.8), None,
           Known(ALLOW), "TRANSFER_WITHIN_INTEGRITY_BOUNDS", None, None, None, Some(3600)),
      Rule(33, Some(TRANSFER), Some(Usdc(1000)), None, [], None, None, None,
           Known(CHALLENGE), "TRANSFER_INTEGRITY_UNPROVEN", None, None, None, None)
    ]
  }

  /** 40-49: risk-banded trading. */
  function Trading(): seq<Rule> {
    [
      Rule(40, Some(TRADE), None, None, [UNCERTAIN], None, None, None,
           Known(LIMIT), "TRADE_LIMITED_UNCERTAIN_TRUST", Some(Usdc(500)), Some(20), Some(86_400), Some(86_400)),
      Rule(41, Some(TRADE), None, None, [HIGH_RISK], None, None, None,
           Known(LIMIT), "TRADE_LIMITED_HIGH_RISK", Some(Usdc(100)), Some(5), Some(86_400), Some(3600)),
      Rule(42, Some(TRADE), None, None, [ESTABLISHED_LOW, VERIFIED_LOW], None, None, None,
           Known(LIMIT), "TRADE_WITHIN_ESTABLISHED_BOUNDS", Some(Usdc(2000)), Some(100), Some(86_400), Some(86_400))
    ]
  }

  /** 50-51: API allowances. */
  function Api(): seq<Rule> {
    [
      Rule(50, Some(API_REQUEST), None, None, [UNCERTAIN], None, None, None,
           Known(LIMIT), "API_ALLOWANCE_UNCERTAIN", None, Some(10), Some(86_400), Some(86_400)),
      Rule(51, Some(API_REQUEST), None, None, [ESTABLISHED_LOW, VERIFIED_LOW], None, None, None,
           Known(LIMIT), "API_ALLOWANCE_ESTABLISHED", None, Some(500), Some(3600), Some(86_400))
    ]
  }

  /** 52-56: agent commerce. */
  function Commerce(): seq<Rule> {
    [
      Rule(52, Some(X402_PAYMENT), None, None, [HIGH_RISK, CRITICAL], None, None, None,
           Known(BLOCK), "X402_ANOMALOUS_ACTOR", None, None, None, None),
      Rule(53, Some(X402_PAYMENT), None, None, [VERIFIED_LOW], None, None, None,
           Known(LIMIT), "X402_ALLOWANCE_TRUSTED", None, Some(5000), Some(3600), Some(3600)),
      Rule(54, Some(X402_PAYMENT), None, None, [ESTABLISHED_LOW], None, None, Some(true),
           Known(LIMIT), "X402_ALLOWANCE_HUMAN_BACKED", None, Some(500), Some(3600), Some(3600)),
      Rule(55, Some(X402_PAYMENT), None, None, [ESTABLISHED_LOW], None, None, None,
           Known(LIMIT), "X402_ALLOWANCE_NO_ASSURANCE", None, Some(10), Some(86_400), Some(86_400)),
      Rule(56, Some(X402_PAYMENT), None, None, [UNCERTAIN], None, None, None,
           Known(LIMIT), "X402_ALLOWANCE_NEW", None, Some(10), Some(86_400), Some(86_400))
    ]
  }

  /** 60-69: claims. */
  function Claims(): seq<Rule> {
    [
      Rule(60, Some(CLAIM), None, Some(Usdc(100)), [], Some(0.3), None, None,
           Known(ALLOW), "CLAIM_WITHIN_ALLOW_BAND", None, None, None, Some(3600)),
      Rule(61, Some(CLAIM), None, None, [HIGH_RISK], None, None, None,
           Known(CHALLENGE), "CLAIM_REQUIRES_ASSURANCE", None, None, None, None),
      Rule(62, Some(CLAIM), None, None, [ESTABLISHED_LOW, VERIFIED_LOW], None, None, None,
           Known(ALLOW), "CLAIM_ESTABLISHED_ACTOR", None, None, None, Some(3600)),
      Rule(63, Some(CLAIM), None, None, [], Some(0.3), None, None,
           Known(ALLOW), "CLAIM_LOW_COORDINATION_RISK", None, None, None, Some(3600)),
      Rule(64, Some(CLAIM), None, None, [], None, None, None,
           Known(CHALLENGE), "CLAIM_UNCERTAIN_REQUIRES_ASSURANCE", None, None, None, None)
    ]
  }

  /** 90 and up: catch-alls. */
  function CatchAlls(): seq<Rule> {
    [
      Rule(90, Some(VOTE), None, None, [], None, None, Some(false),
           Known(CHALLENGE), "VOTE_REQUIRES_UNIQUENESS", None, None, None, None),
      Rule(99, None, None, None, [], None, None, None,
           Known(REVIEW), "NO_SPECIFIC_RULE", None, None, None, None)
    ]
  }

  function PolicyRuleSeeds(): seq<Rule> {
    HardStops() + HighValue() + Trading() + Api() + Commerce() + Claims() + CatchAlls()
  }

  // ---- reading the table ----

  lemma UsdcParsed(whole: nat)
    ensures ParseAmount(Some(Usdc(whole))) == Some(whole * UNITS_PER_USDC) == Some(whole * 1_000_000)
  {
    ParseDecimalText(whole * UNITS_PER_USDC);
  }

  /** A readable amount of at least, or at most, so many dollars. */
  predicate AtLeastUsdc(q: Request, whole: nat) {
    ParseAmount(q.amount).Some? && ParseAmount(q.amount).value >= whole * UNITS_PER_USDC
  }

  predicate AtMostUsdc(q: Request, whole: nat) {
    ParseAmount(q.amount).Some? && ParseAmount(q.amount).value <= whole * UNITS_PER_USDC
  }

  predicate Established(band: TrustBand) { band == ESTABLISHED_LOW || band == VERIFIED_LOW }

  predicate LowRisk(q: Request) { q.coordinationRisk.Some? && q.coordinationRisk.value <= 0.3 }

  predicate Sound(q: Request) { q.behaviorIntegrity.Some? && q.behaviorIntegrity.value >= 0.8 }

  datatype Verdict = NoRule | Refused | Permitted

  function VerdictOf(rules: seq<Rule>, q: Request): Verdict {
    var m := FirstMatch(rules, q);
    if m.None? then NoRule else if PermissiveRule(m.value) then Permitted else Refused
  }

  /** Reading on from rule `k`. */
  lemma VerdictFrom(rules: seq<Rule>, k: nat, q: Request)
    requires k < |rules|
    ensures VerdictOf(rules[k..], q) ==
      if RuleMatches(rules[k], q) then (if PermissiveRule(rules[k]) then Permitted else Refused)
      else VerdictOf(rules[k + 1..], q)
  {
    assert rules[k..][1..] == rules[k + 1..];
  }

  lemma VerdictEnds(rules: seq<Rule>, q: Request)
    ensures rules[0..] == rules && VerdictOf(rules[|rules|..], q) == NoRule
  {
  }

  lemma NoAmount()
    ensures ParseAmount(None) == None
  {
  }

  lemma VerdictConcat(a: seq<Rule>, b: seq<Rule>, q: Request)
    ensures VerdictOf(a + b, q) == if VerdictOf(a, q) == NoRule then VerdictOf(b, q) else VerdictOf(a, q)
  {
    FirstMatchConcat(a, b, q);
  }

  lemma HardStopsVerdict(q: Request)
    ensures VerdictOf(HardStops(), q) ==
      if q.band == CRITICAL || q.band == INSUFFICIENT_EVIDENCE then Refused else NoRule
  {
    hide ParseAmount, VerdictOf, Usdc;
    NoAmount();
    var x := HardStops();
    VerdictEnds(x, q);
    VerdictFrom(x, 0, q); VerdictFrom(x, 1, q);
  }

  lemma HighValueVerdict(q: Request)
    ensures VerdictOf(HighValue(), q) ==
      match q.actionType
      case BORROW => if q.hasLiveLease then NoRule else Refused
      case TRANSFER =>
        if AtLeastUsdc(q, 5000) && !q.hasLiveLease then Refused
        else if AtLeastUsdc(q, 1000) then (if Sound(q) then Permitted else Refused)
        else NoRule
      case _ => NoRule
  {
    hide ParseAmount, VerdictOf, Usdc;
    NoAmount();
    UsdcParsed(5000);
    UsdcParsed(1000);
    var x := HighValue();
    VerdictEnds(x, q);
    VerdictFrom(x, 0, q); VerdictFrom(x, 1, q); VerdictFrom(x, 2, q); VerdictFrom(x, 3, q);
  }

  lemma TradingVerdict(q: Request)
    ensures VerdictOf(Trading(), q) ==
      if q.actionType == TRADE && (q.band == UNCERTAIN || q.band == HIGH_RISK || Established(q.band))
      then Permitted else NoRule
  {
    hide ParseAmount, VerdictOf, Usdc;
    NoAmount();
    var x := Trading();
    VerdictEnds(x, q);
    VerdictFrom(x, 0, q); VerdictFrom(x, 1, q); VerdictFrom(x, 2, q);
  }

  lemma ApiVerdict(q: Request)
    ensures VerdictOf(Api(), q) ==
      if q.actionType == API_REQUEST && (q.band == UNCERTAIN || Established(q.band)) then Permitted else NoRule
  {
    hide ParseAmount, VerdictOf, Usdc;
    NoAmount();
    var x := Api();
    VerdictEnds(x, q);
    VerdictFrom(x, 0, q); VerdictFrom(x, 1, q);
  }

  lemma CommerceVerdict(q: Request)
    ensures VerdictOf(Commerce(), q) ==
      if q.actionType != X402_PAYMENT then NoRule
      else if q.band == HIGH_RISK || q.band == CRITICAL then Refused
      else if q.band == UNCERTAIN || Established(q.band) then Permitted
      else NoRule
  {
    hide ParseAmount, VerdictOf, Usdc;
    NoAmount();
    var x := Commerce();
    VerdictEnds(x, q);
    VerdictFrom(x, 0, q); VerdictFrom(x, 1, q); VerdictFrom(x, 2, q); VerdictFrom(x, 3, q); VerdictFrom(x, 4, q);
  }

  lemma ClaimsVerdict(q: Request)
    ensures VerdictOf(Claims(), q) ==
      if q.actionType != CLAIM then NoRule
      else if Established(q.band) || (LowRisk(q) && (q.band != HIGH_RISK || AtMostUsdc(q, 100))) then Permitted
      else Refused
  {
    hide ParseAmount, VerdictOf, Usdc;
    NoAmount();
    UsdcParsed(100);
    var x := Claims();
    VerdictEnds(x, q);
    VerdictFrom(x, 0, q); VerdictFrom(x, 1, q); VerdictFrom(x, 2, q); VerdictFrom(x, 3, q); VerdictFrom(x, 4, q);
  }

  lemma CatchAllsVerdict(q: Request)
    ensures VerdictOf(CatchAlls(), q) ==
      Refused
  {
    hide ParseAmount, VerdictOf, Usdc;
    NoAmount();
    var x := CatchAlls();
    VerdictEnds(x, q);
    VerdictFrom(x, 0, q); VerdictFrom(x, 1, q);
  }

  // ---- what the table permits ----

  /** The least it takes, action by action, for the seeded policy to permit a request. */
  predicate Earned(q: Request) {
    && q.band != CRITICAL && q.band != INSUFFICIENT_EVIDENCE
    && match q.actionType
       case TRANSFER => AtLeastUsdc(q, 1000) && Sound(q) && (AtLeastUsdc(q, 5000) ==> q.hasLiveLease)
       case TRADE => true
       case API_REQUEST => q.band != HIGH_RISK
       case X402_PAYMENT => q.band != HIGH_RISK
       case CLAIM => Established(q.band) || (LowRisk(q) && (q.band != HIGH_RISK || AtMostUsdc(q, 100)))
       case _ => false
  }

  lemma SeedsVerdict(q: Request)
    ensures VerdictOf(PolicyRuleSeeds(), q) == if Earned(q) then Permitted else Refused
  {
    hide VerdictOf, HardStops, HighValue, Trading, Api, Commerce, Claims, CatchAlls;
    hide AtLeastUsdc, AtMostUsdc, Sound, LowRisk;
    MoreIsMore(q);
    var a := HardStops() + HighValue();
    var b := a + Trading();
    var c := b + Api();
    var d := c + Commerce();
    var e := d + Claims();
    VerdictConcat(HardStops(), HighValue(), q);
    VerdictConcat(a, Trading(), q);
    VerdictConcat(b, Api(), q);
    VerdictConcat(c, Commerce(), q);
    VerdictConcat(d, Claims(), q);
    VerdictConcat(e, CatchAlls(), q);
    HardStopsVerdict(q);
    HighValueVerdict(q);
    TradingVerdict(q);
    ApiVerdict(q);
    CommerceVerdict(q);
    ClaimsVerdict(q);
    CatchAllsVerdict(q);
  }

  lemma MoreIsMore(q: Request)
    ensures AtLeastUsdc(q, 5000) ==> AtLeastUsdc(q, 1000)
  {
    hide ParseAmount;
  }

  /** Priorities as listed. */
  function Priorities(): seq<int> {
    [10, 20, 30, 31, 32, 33, 40, 41, 42, 50, 51, 52, 53, 54, 55, 56, 60, 61, 62, 63, 64, 90, 99]
  }

  lemma SeedPriorities()
    ensures
      var seeds := PolicyRuleSeeds();
      |seeds| == |Priorities()| && forall i | 0 <= i < |seeds| :: seeds[i].priority == Priorities()[i]
  {
    hide Usdc;
  }

  lemma {:induction false} PrioritiesAscend(i: nat, j: nat)
    requires i < j < |Priorities()|
    ensures Priorities()[i] < Priorities()[j]
  {
    NextPriority(j - 1);
    if i < j - 1 { PrioritiesAscend(i, j - 1); }
  }

  lemma NextPriority(i: nat)
    requires i + 1 < |Priorities()|
    ensures Priorities()[i] < Priorities()[i + 1]
  {
  }

  /** The table is listed by unique, ascending priority, so its order is the policy. */
  lemma SeedsOrdered()
    ensures UniquePriorities(PolicyRuleSeeds())
    ensures Sort(PolicyRuleSeeds(), ByPriority) == PolicyRuleSeeds()
  {
    hide PolicyRuleSeeds, Priorities;
    SeedPriorities();
    forall i, j | 0 <= i < j < |Priorities()| ensures Priorities()[i] < Priorities()[j] { PrioritiesAscend(i, j); }
    SortOrdered(PolicyRuleSeeds());
  }

  /** Every request is settled by a rule, and is permitted exactly when it has earned it. */
  lemma SeedsPermitExactly(q: Request, now: int)
    ensures SelectRule(PolicyRuleSeeds(), q).Some?
    ensures Permissive(EvaluateRules(PolicyRuleSeeds(), q, now)) <==> Earned(q)
  {
    hide PolicyRuleSeeds, Earned, Sort;
    SeedsOrdered();
    SeedsVerdict(q);
  }

  /** The fail-closed promises: no permission for the unmeasured, for borrowing, or for large transfers unbacked. */
  lemma SeedsNeverPermit(q: Request, now: int)
    requires Permissive(EvaluateRules(PolicyRuleSeeds(), q, now))
    ensures q.band != INSUFFICIENT_EVIDENCE && q.band != CRITICAL
    ensures q.actionType != BORROW && q.actionType != VOTE
    ensures q.actionType == TRANSFER && AtLeastUsdc(q, 5000) ==> q.hasLiveLease
    ensures q.actionType == CLAIM && !Established(q.band) ==> q.coordinationRisk.Some?
  {
    SeedsPermitExactly(q, now);
  }

  // ---- the hypothesis about forgotten measurements ----

  lemma SeedsOnlyPermitOnMeasurements()
    ensures RiskOnlyPermits(PolicyRuleSeeds()) && IntegrityOnlyPermits(PolicyRuleSeeds())
  {
    hide Usdc;
    forall r | r in PolicyRuleSeeds() && !PermissiveRule(r)
      ensures r.maxCoordinationRisk.None? && r.minBehaviorIntegrity.None?
    {
      assert r in HardStops() || r in HighValue() || r in Trading() || r in Api()
        || r in Commerce() || r in Claims() || r in CatchAlls();
    }
  }

  /** Under the seeded policy, losing either measurement never opens anything. */
  lemma SeedsForgetSafely(q: Request, now: int)
    requires !Permissive(EvaluateRules(PolicyRuleSeeds(), q, now))
    ensures EvaluateRules(PolicyRuleSeeds(), q.(coordinationRisk := None), now)
         == EvaluateRules(PolicyRuleSeeds(), q, now)
    ensures EvaluateRules(PolicyRuleSeeds(), q.(behaviorIntegrity := None), now)
         == EvaluateRules(PolicyRuleSeeds(), q, now)
  {
    hide PolicyRuleSeeds;
    SeedsOnlyPermitOnMeasurements();
    ForgettingRiskPermitsNothing(PolicyRuleSeeds(), q, now);
    ForgettingIntegrityPermitsNothing(PolicyRuleSeeds(), q, now);
  }
}
