/** The seeded policy and the capability check together: what a permitted request lets its actor do afterwards. */
module PolicyGrants {
  import opened Common
  import opened CapabilityTypes
  import opened CapabilityService
  import opened RuleEngine
  import opened PolicyRules

  function ActionText(a: ActionType): string {
    match a
    case CLAIM => "CLAIM"
    case VOTE => "VOTE"
    case MINT => "MINT"
    case TRADE => "TRADE"
    case BORROW => "BORROW"
    case TRANSFER => "TRANSFER"
    case API_REQUEST => "API_REQUEST"
    case X402_PAYMENT => "X402_PAYMENT"
    case AGENT_DELEGATION => "AGENT_DELEGATION"
  }

  /** Who asked, for what scope, by which decision, and under which live lease if any. */
  datatype Grant = Grant(actorId: string, scope: string, decision: string, lease: Option<string>)

  /** The lease recorded is the one policy was told of. */
  predicate LeaseAgrees(g: Grant, q: Request) { (g.lease.Some? <==> q.hasLiveLease) && g.lease != Some("") }

  predicate Permitted(q: Request, now: int) { Permissive(EvaluateRules(PolicyRuleSeeds(), q, now)) }

  lemma PermittedHasLimits(q: Request, now: int)
    requires Permitted(q, now)
    ensures EvaluateRules(PolicyRuleSeeds(), q, now).limits.Some?
  {
    hide PolicyRuleSeeds, SelectRule;
  }

  /** The capability a permitted request leaves behind. */
  function GrantedTo(g: Grant, q: Request, now: int): Capability
    requires Permitted(q, now)
  {
    PermittedHasLimits(q, now);
    var o := EvaluateRules(PolicyRuleSeeds(), q, now);
    Capability(g.actorId, ActionText(q.actionType), g.scope, o.attenuated, o.limits.value, ACTIVE,
               Some(g.decision), g.lease)
  }

  function WithGrant(db: Db, g: Grant, q: Request, now: int): (after: Db)
    requires Permitted(q, now)
    ensures |after.caps| == |db.caps| + 1
  {
    db.(caps := db.caps + [GrantedTo(g, q, now)])
  }

  /** What a grant records besides its limits: for whom, for what, on what grounds, and whether it was cut down. */
  lemma GrantRecords(g: Grant, q: Request, now: int)
    requires Permitted(q, now)
    ensures
      var c := GrantedTo(g, q, now);
      && c.actorId == g.actorId && c.resourceScope == g.scope && c.status == ACTIVE
      && c.sourceDecisionId == Some(g.decision) && c.assuranceLeaseId == g.lease
      && (c.attenuated <==> !WithinAmountLimit(q.amount, c.limits.amountLimit))
  {
    hide PolicyRuleSeeds, SelectRule, WithinAmountLimit;
    PermittedBy(q, now);
    var r := SelectRule(PolicyRuleSeeds(), q).value;
    if r.effect == Known(ALLOW) { AllowedIsUncapped(r, q); }
  }

  /** The rules that allow outright name no ceiling. */
  lemma AllowedIsUncapped(r: Rule, q: Request)
    requires r in PolicyRuleSeeds() && r.effect == Known(ALLOW)
    ensures r.limitAmount.None? && WithinAmountLimit(q.amount, r.limitAmount)
  {
    hide Usdc;
    SeedsContain(r);
  }

  // ---- the limits of the permitting rules ----

  /** Only trading rules cap the amount; a transfer is bounded in time alone. */
  lemma PermissiveLimits(r: Rule)
    requires r in PolicyRuleSeeds() && PermissiveRule(r)
    ensures r.actionType.Some?
    ensures r.limitAmount.Some? <==> r.actionType == Some(TRADE)
    ensures r.actionType == Some(TRANSFER) ==>
      r.limitFrequency.None? && r.limitWindowSeconds.None? && r.capabilityTtlSeconds == Some(3600)
  {
    hide Usdc;
    assert r in HardStops() || r in HighValue() || r in Trading() || r in Api()
      || r in Commerce() || r in Claims() || r in CatchAlls();
  }

  lemma PermittedBy(q: Request, now: int)
    requires Permitted(q, now)
    ensures
      var r := SelectRule(PolicyRuleSeeds(), q);
      && r.Some? && r.value in PolicyRuleSeeds() && RuleMatches(r.value, q) && PermissiveRule(r.value)
      && EvaluateRules(PolicyRuleSeeds(), q, now).limits == Some(LimitsFor(r.value, now))
  {
    hide PolicyRuleSeeds, SelectRule;
    SelectRuleLeast(PolicyRuleSeeds(), q);
  }

  /** What was permitted for any action but a trade carries no amount ceiling, whatever amount was asked for. */
  lemma OnlyTradesCapped(g: Grant, q: Request, now: int)
    requires Permitted(q, now)
    ensures GrantedTo(g, q, now).limits.amountLimit.Some? <==> q.actionType == TRADE
    ensures q.actionType == TRANSFER ==>
      GrantedTo(g, q, now).limits == Limits(None, None, None, [], Some(now + 3_600_000))
  {
    hide PolicyRuleSeeds, SelectRule, EvaluateRules;
    PermittedBy(q, now);
    PermissiveLimits(SelectRule(PolicyRuleSeeds(), q).value);
  }

  // ---- transfers ----

  predicate TransferBy(args: Exercise, g: Grant) { args.actorId == g.actorId && args.actionType == "TRANSFER" }

  /** After a permitted transfer request transfers of any amount pass, for an hour, while its lease lives. */
  lemma TransferPassesExactly(db: Db, g: Grant, q: Request, now: int, args: Exercise)
    requires Permitted(q, now) && q.actionType == TRANSFER && LeaseAgrees(g, q) && TransferBy(args, g)
    ensures Usable(WithGrant(db, g, q, now), |db.caps|, args) <==>
      && args.now < now + 3_600_000
      && (q.hasLiveLease ==> g.lease.Some? && IsLeaseLive(LeaseOf(db, g.lease.value), args.now))
  {
    hide Permitted, GrantedTo;
    assert GrantedTo(g, q, now).actorId == g.actorId && GrantedTo(g, q, now).actionType == "TRANSFER"
      && GrantedTo(g, q, now).status == ACTIVE && GrantedTo(g, q, now).assuranceLeaseId == g.lease by {
      GrantShape(g, q, now);
    }
    OnlyTradesCapped(g, q, now);
  }

  lemma GrantShape(g: Grant, q: Request, now: int)
    requires Permitted(q, now)
    ensures
      var c := GrantedTo(g, q, now);
      && c.actorId == g.actorId && c.actionType == ActionText(q.actionType) && c.status == ACTIVE
      && c.assuranceLeaseId == g.lease
  {
  }

  lemma ClaimLimits(r: Rule, q: Request)
    requires r in PolicyRuleSeeds() && PermissiveRule(r) && RuleMatches(r, q) && q.actionType == CLAIM
    ensures LimitsFor(r, 0) == Limits(None, None, None, [], Some(3_600_000))
  {
    hide Usdc, ParseAmount, PolicyRuleSeeds;
    SeedsContain(r);
  }

  /** After a permitted claim request any number of claims of any amount pass for an hour, while its lease lives. */
  lemma ClaimPassesExactly(db: Db, g: Grant, q: Request, now: int, args: Exercise)
    requires Permitted(q, now) && q.actionType == CLAIM && g.lease != Some("")
    requires args.actorId == g.actorId && args.actionType == "CLAIM"
    ensures Usable(WithGrant(db, g, q, now), |db.caps|, args) <==>
      && args.now < now + 3_600_000
      && (g.lease.Some? ==> IsLeaseLive(LeaseOf(db, g.lease.value), args.now))
  {
    hide PolicyRuleSeeds, SelectRule, EvaluateRules, RuleMatches, ParseAmount;
    PermittedBy(q, now);
    ClaimLimits(SelectRule(PolicyRuleSeeds(), q).value, q);
    GrantShape(g, q, now);
    NoAmount();
  }

  predicate TreasuryScale(args: Exercise) {
    ParseAmount(args.amount).Some? && ParseAmount(args.amount).value >= 5000 * UNITS_PER_USDC
  }

  ghost predicate SomeLeaseLive(leases: map<string, Lease>, now: int) {
    exists id :: id in leases && IsLeaseLive(Some(leases[id]), now)
  }

  /** Whatever becomes of the leases, a treasury-scale transfer passes on this grant only under a live one. */
  ghost predicate LargeTransfersBacked(db: Db, g: Grant, q: Request, now: int)
    requires Permitted(q, now)
  {
    forall leases, args |
      TransferBy(args, g) && TreasuryScale(args)
      && Usable(WithGrant(db, g, q, now).(leases := leases), |db.caps|, args) :: SomeLeaseLive(leases, args.now)
  }

  /** The grant does not depend on the leases there are. */
  lemma LeasesApart(db: Db, g: Grant, q: Request, now: int, leases: map<string, Lease>)
    requires Permitted(q, now)
    ensures WithGrant(db.(leases := leases), g, q, now) == WithGrant(db, g, q, now).(leases := leases)
  {
  }

  lemma BackedTransfer(db: Db, g: Grant, q: Request, now: int, leases: map<string, Lease>, args: Exercise)
    requires Permitted(q, now) && q.actionType == TRANSFER && LeaseAgrees(g, q) && TransferBy(args, g)
    requires q.hasLiveLease && Usable(WithGrant(db, g, q, now).(leases := leases), |db.caps|, args)
    ensures SomeLeaseLive(leases, args.now)
  {
    hide Permitted, WithGrant, Usable;
    LeasesApart(db, g, q, now, leases);
    TransferPassesExactly(db.(leases := leases), g, q, now, args);
    assert g.lease.value in leases;
  }

  lemma UnbackedTransfer(db: Db, g: Grant, q: Request, now: int) returns (args: Exercise)
    requires Permitted(q, now) && q.actionType == TRANSFER && LeaseAgrees(g, q) && !q.hasLiveLease
    ensures TransferBy(args, g) && TreasuryScale(args)
    ensures Usable(WithGrant(db, g, q, now).(leases := map[]), |db.caps|, args)
  {
    hide Permitted, WithGrant, Usable;
    args := Exercise(g.actorId, "TRANSFER", Some(Usdc(5000)), None, now);
    UsdcParsed(5000);
    LeasesApart(db, g, q, now, map[]);
    TransferPassesExactly(db.(leases := map[]), g, q, now, args);
  }

  /**
   * Transfers of 5000 USDC or more are documented to need a live lease. The grant left by a permitted transfer
   * request keeps that exactly when the request itself was made under a live lease, whatever amount it named.
   */
  lemma LargeTransfersExact(db: Db, g: Grant, q: Request, now: int)
    requires Permitted(q, now) && q.actionType == TRANSFER && LeaseAgrees(g, q)
    ensures LargeTransfersBacked(db, g, q, now) <==> q.hasLiveLease
  {
    hide Permitted, WithGrant, Usable, LeaseAgrees;
    if q.hasLiveLease {
      forall leases, args |
        TransferBy(args, g) && TreasuryScale(args)
        && Usable(WithGrant(db, g, q, now).(leases := leases), |db.caps|, args)
        ensures SomeLeaseLive(leases, args.now)
      {
        BackedTransfer(db, g, q, now, leases, args);
      }
    } else {
      var args := UnbackedTransfer(db, g, q, now);
      assert !SomeLeaseLive(map[], args.now);
    }
  }

  // A request for 1000 USDC by an actor of proven integrity and no lease.

  function SmallRequest(): Request { Request(TRANSFER, Some(Usdc(1000)), ESTABLISHED_LOW, None, Some(0.9), false) }

  const UNLEASED: Grant := Grant("actor", "TOKEN:usdc", "decision", None)

  lemma SmallRequestPermitted(now: int)
    ensures Permitted(SmallRequest(), now) && LeaseAgrees(UNLEASED, SmallRequest())
  {
    hide PolicyRuleSeeds, EvaluateRules, Usdc;
    UsdcParsed(1000);
    SeedsPermitExactly(SmallRequest(), now);
  }

  /** It is permitted, and after it the check passes a transfer of any amount, a million for one. */
  lemma SmallRequestLargeTransfer(now: int, amount: nat)
    ensures Permitted(SmallRequest(), now)
    ensures
      var args := Exercise("actor", "TRANSFER", Some(Usdc(amount)), None, now);
      CheckResult(WithGrant(Db([], [], map[]), UNLEASED, SmallRequest(), now), args) == Allowed(0)
  {
    hide Permitted, CheckResult, Usable, WithGrant, Usdc;
    SmallRequestPermitted(now);
    var db, args := Db([], [], map[]), Exercise("actor", "TRANSFER", Some(Usdc(amount)), None, now);
    TransferPassesExactly(db, UNLEASED, SmallRequest(), now, args);
    CheckExact(WithGrant(db, UNLEASED, SmallRequest(), now), args);
  }

  // ---- allowances ----

  /** How many uses in how many seconds, for how long, and up to how many dollars a use when there is a ceiling. */
  datatype Allowance = Allowance(uses: nat, perSeconds: nat, forSeconds: nat, ceiling: Option<nat>)

  /** What the policy gives an actor of a trust band for trades, API requests and payments. */
  function AllowanceOf(q: Request): Option<Allowance> {
    match q.actionType
    case TRADE =>
      if q.band == UNCERTAIN then Some(Allowance(20, 86_400, 86_400, Some(500)))
      else if q.band == HIGH_RISK then Some(Allowance(5, 86_400, 3600, Some(100)))
      else Some(Allowance(100, 86_400, 86_400, Some(2000)))
    case API_REQUEST =>
      if q.band == UNCERTAIN then Some(Allowance(10, 86_400, 86_400, None))
      else Some(Allowance(500, 3600, 86_400, None))
    case X402_PAYMENT =>
      if q.band == VERIFIED_LOW then Some(Allowance(5000, 3600, 3600, None))
      else if q.band == ESTABLISHED_LOW && q.hasLiveLease then Some(Allowance(500, 3600, 3600, None))
      else Some(Allowance(10, 86_400, 86_400, None))
    case _ => None
  }

  predicate HasAllowance(r: Rule, a: Allowance) {
    && r.limitFrequency == Some(a.uses) && r.limitWindowSeconds == Some(a.perSeconds)
    && r.capabilityTtlSeconds == Some(a.forSeconds)
    && r.limitAmount == match a.ceiling case None => None case Some(dollars) => Some(Usdc(dollars))
  }

  /** The rule for leased payments comes before the one that asks for no lease. */
  lemma LeasedPaymentRule(q: Request) returns (r: Rule)
    requires q.actionType == X402_PAYMENT && q.band == ESTABLISHED_LOW && q.hasLiveLease
    ensures r in PolicyRuleSeeds() && RuleMatches(r, q) && r.priority == 54
  {
    r := Commerce()[2];
    assert r in Commerce();
    SeedsContain(r);
  }

  lemma SeedsContain(r: Rule)
    ensures r in PolicyRuleSeeds() <==>
      || r in HardStops() || r in HighValue() || r in Trading() || r in Api()
      || r in Commerce() || r in Claims() || r in CatchAlls()
  {
    hide HardStops, HighValue, Trading, Api, Commerce, Claims, CatchAlls;
  }

  lemma AllowanceRule(r: Rule, q: Request)
    requires r in PolicyRuleSeeds() && PermissiveRule(r) && RuleMatches(r, q) && AllowanceOf(q).Some?
    requires q.actionType == X402_PAYMENT && q.band == ESTABLISHED_LOW && q.hasLiveLease ==> r.priority <= 54
    ensures HasAllowance(r, AllowanceOf(q).value)
  {
    hide Usdc, ParseAmount, PolicyRuleSeeds;
    SeedsContain(r);
  }

  lemma GrantHasAllowance(g: Grant, q: Request, now: int)
    requires Permitted(q, now) && AllowanceOf(q).Some?
    ensures
      var c, a := GrantedTo(g, q, now).limits, AllowanceOf(q).value;
      && c.frequencyLimit == Some(a.uses) && c.frequencyWindowSeconds == Some(a.perSeconds)
      && c.expiresAt == Some(now + a.forSeconds * 1000) && c.allowedTargets == []
      && c.amountLimit == match a.ceiling case None => None case Some(dollars) => Some(Usdc(dollars))
  {
    hide PolicyRuleSeeds, SelectRule, EvaluateRules, RuleMatches, AllowanceOf, Usdc;
    PermittedBy(q, now);
    SelectRuleLeast(PolicyRuleSeeds(), q);
    var r := SelectRule(PolicyRuleSeeds(), q).value;
    if q.actionType == X402_PAYMENT && q.band == ESTABLISHED_LOW && q.hasLiveLease {
      var leased := LeasedPaymentRule(q);
    }
    AllowanceRule(r, q);
  }

  lemma HasSome(q: Request)
    ensures AllowanceOf(q).Some? <==>
      q.actionType == TRADE || q.actionType == API_REQUEST || q.actionType == X402_PAYMENT
  {
  }

  /** Nothing is asked for, or a readable amount of at most so many dollars. */
  predicate WithinDollars(amount: Option<string>, dollars: nat) {
    amount.None? || (ParseAmount(amount).Some? && ParseAmount(amount).value <= dollars * UNITS_PER_USDC)
  }

  /**
   * What an allowance allows. The capability left by a permitted trade, API request or payment passes the check exactly
   * while it has not run out of time, its lease if any is live, the amount fits, and fewer uses than its limit were
   * recorded since the start of its window; whatever else happened to the tables since.
   */
  lemma AllowanceExact(db: Db, id: nat, g: Grant, q: Request, now: int, args: Exercise)
    requires Permitted(q, now) && g.lease != Some("") && args.actorId == g.actorId
    requires
      || (q.actionType == TRADE && args.actionType == "TRADE")
      || (q.actionType == API_REQUEST && args.actionType == "API_REQUEST")
      || (q.actionType == X402_PAYMENT && args.actionType == "X402_PAYMENT")
    requires id < |db.caps| && db.caps[id] == GrantedTo(g, q, now)
    ensures AllowanceOf(q).Some?
    ensures
      var a := AllowanceOf(q).value;
      Usable(db, id, args) <==>
        && args.now < now + a.forSeconds * 1000
        && (g.lease.Some? ==> g.lease.value in db.leases && db.leases[g.lease.value].status == ACTIVE
                              && db.leases[g.lease.value].expiresAt > args.now)
        && (a.ceiling.Some? ==> WithinDollars(args.amount, a.ceiling.value))
        && |UsesSince(db.usages, id, args.now - a.perSeconds * 1000)| < a.uses
  {
    hide Permitted, GrantedTo, AllowanceOf, Usable, UsesSince, Usdc, ParseAmount;
    HasSome(q);
    GrantShape(g, q, now);
    GrantHasAllowance(g, q, now);
    UsableMeans(db, id, args);
    var a := AllowanceOf(q).value;
    if a.ceiling.Some? { UsdcParsed(a.ceiling.value); }
    MissesEach(db, db.caps[id], id, args);
    assert ParseAmount(None) == None by { NoAmount(); }
  }

  /** Its limit of uses within its window, and it is refused as exhausted; the eleventh payment of a day, say. */
  lemma ExhaustedRefused(db: Db, id: nat, g: Grant, q: Request, now: int, args: Exercise, a: Allowance)
    requires Permitted(q, now) && AllowanceOf(q) == Some(a)
    requires a.ceiling.Some? ==> WithinDollars(args.amount, a.ceiling.value)
    requires g.lease.None? || (g.lease.value != "" && IsLeaseLive(LeaseOf(db, g.lease.value), args.now))
    requires id < |db.caps| && db.caps[id] == GrantedTo(g, q, now)
    requires args.actorId == g.actorId && args.actionType == ActionText(q.actionType)
    requires forall k | 0 <= k < |db.caps| && k != id :: !Asked(db.caps[k], args)
    requires args.now < now + a.forSeconds * 1000
    requires |UsesSince(db.usages, id, args.now - a.perSeconds * 1000)| >= a.uses
    ensures CheckResult(db, args) == Denied(Some(id), FREQUENCY_EXCEEDED)
  {
    hide Permitted, GrantedTo, CheckResult, UsesSince, Usdc, ParseAmount, AllowanceOf, ActionText;
    GrantHasAllowance(g, q, now);
    GrantShape(g, q, now);
    if a.ceiling.Some? { UsdcParsed(a.ceiling.value); }
    NoAmount();
    SoleRefusal(db, id, args, FREQUENCY_EXCEEDED);
  }
}
