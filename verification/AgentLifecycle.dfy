/** The life of one human-backed agent: status, assurance lease and capability envelope (`agent-service.ts`). */
module AgentLifecycle {
  import opened Common
  import opened CapabilityTypes
  import opened CapabilityService

  datatype AgentStatus = DRAFT | VERIFYING | HUMAN_BACKED | AGENT_ACTIVE | RESTRICTED | FROZEN | AGENT_REVOKED

  /** `ownLeases` are the leases of this agent's actor; other rows of the tables may belong to anyone. */
  datatype State = State(
    agentId: string, actorId: string, stage: AgentStatus, lease: Option<string>,
    ownLeases: set<string>, db: Db, now: int)

  /** How many seconds of assurance a proof buys, without and with a liveness proof. */
  datatype Terms = Terms(worldOnly: nat, worldPlusActive: nat)

  /** A challenge on record: whether it passed, and whether it was this agent's actor who took it. */
  datatype Proof = Proof(passed: bool, sameActor: bool)

  /** The proofs a caller points at. */
  datatype Proofs = Proofs(world: Option<Proof>, liveness: Option<Proof>)

  datatype Outcome = Succeeded | Refused | Interrupted

  predicate CanTransition(from: AgentStatus, to: AgentStatus) {
    match from
    case DRAFT => to == VERIFYING || to == AGENT_REVOKED
    case VERIFYING => to == HUMAN_BACKED || to == DRAFT || to == AGENT_REVOKED
    case HUMAN_BACKED => to == AGENT_ACTIVE || to == FROZEN || to == AGENT_REVOKED
    case AGENT_ACTIVE => to == RESTRICTED || to == FROZEN || to == AGENT_REVOKED
    case RESTRICTED => to == AGENT_ACTIVE || to == FROZEN || to == AGENT_REVOKED
    case FROZEN => to == AGENT_ACTIVE || to == RESTRICTED || to == AGENT_REVOKED
    case AGENT_REVOKED => false
  }

  /** A move to where the agent already is succeeds and changes nothing. */
  predicate Movable(s: State, to: AgentStatus) { s.stage == to || CanTransition(s.stage, to) }

  function Move(s: State, to: AgentStatus): State { if Movable(s, to) then s.(stage := to) else s }

  function LeaseNow(s: State): Option<Lease> { if s.lease.Some? then LeaseOf(s.db, s.lease.value) else None }

  // ---- rows ----

  predicate Mine(s: State, c: Capability) { c.actorId == s.actorId }

  function WithStanding(s: State, from: set<Status>, to: Status): State {
    s.(db := s.db.(caps := Moved(s.db.caps, HeldIn(s.actorId, from), to)))
  }

  function HeldIn(actorId: string, from: set<Status>): Capability -> bool {
    (c: Capability) => c.actorId == actorId && c.status in from
  }

  lemma MovedRow(s: State, from: set<Status>, to: Status, k: nat)
    requires k < |s.db.caps|
    ensures
      var c := s.db.caps[k];
      && |WithStanding(s, from, to).db.caps| == |s.db.caps|
      && WithStanding(s, from, to).db.caps[k] == if Mine(s, c) && c.status in from then WithStatus(c, to) else c
  {
  }

  function WithLease(s: State, id: string, seconds: nat): State {
    s.(db := s.db.(leases := s.db.leases[id := Lease(ACTIVE, s.now + seconds * 1000)]), ownLeases := s.ownLeases + {id})
  }

  function WithoutLeases(s: State): State {
    var all := s.db.leases;
    s.(db := s.db.(leases := map id | id in all ::
      if id in s.ownLeases && all[id].status == ACTIVE then all[id].(status := REVOKED) else all[id]))
  }

  const DAY_SECONDS: int := 86_400

  /** A seed grant: no amount, a daily frequency, any target, no expiry of its own, bound to the lease. */
  function SeedCapability(s: State, lease: string, action: string, frequency: int): Capability {
    Capability(s.actorId, action, "agent:" + s.agentId, false,
               Limits(None, Some(frequency), Some(DAY_SECONDS), [], None), ACTIVE, None, Some(lease))
  }

  function WithSeed(s: State, lease: string, action: string, frequency: int): State {
    s.(db := s.db.(caps := s.db.caps + [SeedCapability(s, lease, action, frequency)]))
  }

  // ---- operations; `cut` says after which write a failure strikes, if one does ----

  function BeginVerification(s: State): (State, Outcome) {
    (Move(s, VERIFYING), if Movable(s, VERIFYING) then Succeeded else Refused)
  }

  /** World assurance is required; a proof pointed at must have passed, and liveness be the actor's own. */
  predicate ProofsOk(p: Proofs) {
    && p.world.Some? && p.world.value.passed
    && (p.liveness.Some? ==> p.liveness.value.passed && p.liveness.value.sameActor)
  }

  /** What the documentation asks of both proofs: that they passed and belong to the agent's actor. */
  predicate ProofsOwn(p: Proofs) { ProofsOk(p) && p.world.value.sameActor }

  datatype Cut = NoCut | AfterVerifying | AfterLease | AfterAssignment | AfterBacking | AfterFirstGrant | AfterGrants

  function LeaseSeconds(p: Proofs, terms: Terms): nat {
    if p.liveness.Some? then terms.worldPlusActive else terms.worldOnly
  }

  /** Verifying, lease, assignment: written before the move to HUMAN_BACKED can be refused. */
  function Assured(s: State, p: Proofs, id: string, terms: Terms): State {
    var verifying := if s.stage == DRAFT then Move(s, VERIFYING) else s;
    WithLease(verifying, id, LeaseSeconds(p, terms)).(lease := Some(id))
  }

  function EstablishAssurance(s: State, p: Proofs, id: string, terms: Terms, cut: Cut): (State, Outcome) {
    if !ProofsOk(p) then (s, Refused)
    else
      var verifying := if s.stage == DRAFT then Move(s, VERIFYING) else s;
      if cut == AfterVerifying || id in s.db.leases || id == "" then (verifying, Interrupted)
      else if cut == AfterLease then (WithLease(verifying, id, LeaseSeconds(p, terms)), Interrupted)
      else
        var assured := Assured(s, p, id, terms);
        if cut == AfterAssignment then (assured, Interrupted)
        else if !Movable(assured, HUMAN_BACKED) then (assured, Refused)
        else
          var backed := Move(assured, HUMAN_BACKED);
          if cut == AfterBacking then (backed, Interrupted)
          else
            var claims := WithSeed(backed, id, "CLAIM", 10);
            if cut == AfterFirstGrant then (claims, Interrupted)
            else
              var granted := WithSeed(claims, id, "API_REQUEST", 100);
              if cut == AfterGrants then (granted, Interrupted) else (Move(granted, AGENT_ACTIVE), Succeeded)
  }

  function FreezeAgent(s: State, cut: bool): (State, Outcome) {
    if !Movable(s, FROZEN) then (s, Refused)
    else if cut then (Move(s, FROZEN), Interrupted)
    else (WithStanding(Move(s, FROZEN), {ACTIVE}, SUSPENDED), Succeeded)
  }

  /** With a recorded lease, only while it is live. */
  function UnfreezeAgent(s: State, cut: bool): (State, Outcome) {
    if s.lease.Some? && s.lease.value != "" && !IsLeaseLive(LeaseNow(s), s.now) then (s, Refused)
    else if !Movable(s, AGENT_ACTIVE) then (s, Refused)
    else if cut then (Move(s, AGENT_ACTIVE), Interrupted)
    else (WithStanding(Move(s, AGENT_ACTIVE), {SUSPENDED}, ACTIVE), Succeeded)
  }

  datatype RevokeCut = Complete | AfterStatus | AfterCapabilities

  /** Status, then capabilities, then leases. */
  function RevokeAgent(s: State, cut: RevokeCut): (State, Outcome) {
    if !Movable(s, AGENT_REVOKED) then (s, Refused)
    else if cut == AfterStatus then (Move(s, AGENT_REVOKED), Interrupted)
    else
      var withdrawn := WithStanding(Move(s, AGENT_REVOKED), {ACTIVE, SUSPENDED}, REVOKED);
      if cut == AfterCapabilities then (withdrawn, Interrupted) else (WithoutLeases(withdrawn), Succeeded)
  }

  // ---- invariants ----

  predicate Backed(stage: AgentStatus) {
    stage == HUMAN_BACKED || stage == AGENT_ACTIVE || stage == RESTRICTED || stage == FROZEN
  }

  predicate LeaseBound(db: Db, c: Capability) {
    c.assuranceLeaseId.Some? && c.assuranceLeaseId.value != "" && c.assuranceLeaseId.value in db.leases
  }

  /** Whatever fails and when: a backed agent has a recorded lease, and its grants hang from leases. */
  ghost predicate Anchored(s: State) {
    && (Backed(s.stage) ==> s.lease.Some?)
    && (s.lease.Some? ==> s.lease.value != "" && s.lease.value in s.db.leases)
    && (forall k | 0 <= k < |s.db.caps| && Mine(s, s.db.caps[k]) :: LeaseBound(s.db, s.db.caps[k]))
  }

  ghost predicate NoneStanding(s: State, standings: set<Status>) {
    forall k | 0 <= k < |s.db.caps| && Mine(s, s.db.caps[k]) :: s.db.caps[k].status !in standings
  }

  /** A frozen agent has nothing active; a revoked one nothing that could become active. */
  ghost predicate Quiet(s: State) {
    && (s.stage == FROZEN ==> NoneStanding(s, {ACTIVE}))
    && (s.stage == AGENT_REVOKED ==> NoneStanding(s, {ACTIVE, SUSPENDED}))
  }

  lemma StandingKeeps(s: State, from: set<Status>, to: Status)
    ensures
      var t := WithStanding(s, from, to);
      && t.actorId == s.actorId && t.stage == s.stage && t.lease == s.lease && t.db.leases == s.db.leases
      && |t.db.caps| == |s.db.caps|
  {
  }

  lemma StandingAfter(s: State, from: set<Status>, to: Status, gone: set<Status>)
    requires to !in gone && gone <= from
    ensures NoneStanding(WithStanding(s, from, to), gone)
  {
    hide WithStanding;
    StandingKeeps(s, from, to);
    forall k | 0 <= k < |s.db.caps| { MovedRow(s, from, to, k); }
  }

  lemma StandingAnchored(s: State, from: set<Status>, to: Status)
    requires Anchored(s)
    ensures Anchored(WithStanding(s, from, to))
  {
    hide WithStanding;
    var t := WithStanding(s, from, to);
    StandingKeeps(s, from, to);
    forall k | 0 <= k < |t.db.caps| && Mine(t, t.db.caps[k]) ensures LeaseBound(t.db, t.db.caps[k]) {
      MovedRow(s, from, to, k);
      assert LeaseBound(s.db, s.db.caps[k]);
    }
  }

  lemma MoveAnchored(s: State, to: AgentStatus)
    requires Anchored(s) && (Backed(to) ==> s.lease.Some?)
    ensures Anchored(Move(s, to))
  {
  }

  lemma LeaseAnchored(s: State, id: string, seconds: nat)
    requires Anchored(s) && id != ""
    ensures Anchored(WithLease(s, id, seconds)) && Anchored(WithLease(s, id, seconds).(lease := Some(id)))
  {
    var t := WithLease(s, id, seconds);
    forall k | 0 <= k < |t.db.caps| && Mine(s, t.db.caps[k]) ensures LeaseBound(t.db, t.db.caps[k]) {
      assert LeaseBound(s.db, s.db.caps[k]);
    }
  }

  lemma SeedAnchored(s: State, id: string, action: string, frequency: int)
    requires Anchored(s) && id != "" && id in s.db.leases
    ensures Anchored(WithSeed(s, id, action, frequency))
  {
    var t := WithSeed(s, id, action, frequency);
    forall k | 0 <= k < |t.db.caps| && Mine(t, t.db.caps[k]) ensures LeaseBound(t.db, t.db.caps[k]) {
      if k < |s.db.caps| { assert LeaseBound(s.db, s.db.caps[k]); }
    }
  }

  lemma EstablishAnchored(s: State, p: Proofs, id: string, terms: Terms, cut: Cut)
    requires Anchored(s)
    ensures Anchored(EstablishAssurance(s, p, id, terms, cut).0)
  {
    hide Anchored, WithLease, WithSeed, LeaseSeconds;
    VerifyingAnchored(s);
    if ProofsOk(p) && id != "" {
      var verifying := if s.stage == DRAFT then Move(s, VERIFYING) else s;
      LeaseAnchored(verifying, id, LeaseSeconds(p, terms));
      var assured := Assured(s, p, id, terms);
      AssuredHasLease(s, p, id, terms);
      MoveAnchored(assured, HUMAN_BACKED);
      var backed := Move(assured, HUMAN_BACKED);
      SeedAnchored(backed, id, "CLAIM", 10);
      SeedKeeps(backed, id, "CLAIM", 10);
      var claims := WithSeed(backed, id, "CLAIM", 10);
      SeedAnchored(claims, id, "API_REQUEST", 100);
      SeedKeeps(claims, id, "API_REQUEST", 100);
      MoveAnchored(WithSeed(claims, id, "API_REQUEST", 100), AGENT_ACTIVE);
    }
  }

  lemma VerifyingAnchored(s: State)
    requires Anchored(s)
    ensures Anchored(if s.stage == DRAFT then Move(s, VERIFYING) else s)
  {
  }

  lemma AssuredHasLease(s: State, p: Proofs, id: string, terms: Terms)
    ensures Assured(s, p, id, terms).lease == Some(id) && id in Assured(s, p, id, terms).db.leases
    ensures Assured(s, p, id, terms).db.caps == s.db.caps && Assured(s, p, id, terms).actorId == s.actorId
    ensures Assured(s, p, id, terms).stage == if s.stage == DRAFT then VERIFYING else s.stage
  {
  }

  lemma SeedKeeps(s: State, id: string, action: string, frequency: int)
    ensures WithSeed(s, id, action, frequency).lease == s.lease && WithSeed(s, id, action, frequency).stage == s.stage
    ensures WithSeed(s, id, action, frequency).db.leases == s.db.leases
  {
  }

  lemma LeasesRevokedAnchored(s: State)
    requires Anchored(s)
    ensures Anchored(WithoutLeases(s))
  {
    var t := WithoutLeases(s);
    forall k | 0 <= k < |t.db.caps| && Mine(t, t.db.caps[k]) ensures LeaseBound(t.db, t.db.caps[k]) {
      assert LeaseBound(s.db, s.db.caps[k]);
    }
  }

  /** A refused or unfinished re-verification of a frozen or revoked agent grants nothing. */
  lemma EstablishQuiet(s: State, p: Proofs, id: string, terms: Terms, cut: Cut)
    requires Quiet(s)
    ensures Quiet(EstablishAssurance(s, p, id, terms, cut).0)
  {
    hide LeaseSeconds, SeedCapability;
    AssuredHasLease(s, p, id, terms);
  }

  // ---- runs ----

  datatype Event =
    | Begin
    | Establish(proofs: Proofs, leaseId: string, cut: Cut)
    | Freeze(freezeCut: bool)
    | Unfreeze(unfreezeCut: bool)
    | Revoke(revokeCut: RevokeCut)
    | Wait(seconds: nat)

  function Step(s: State, e: Event, terms: Terms): State {
    match e
    case Begin => BeginVerification(s).0
    case Establish(p, id, cut) => EstablishAssurance(s, p, id, terms, cut).0
    case Freeze(cut) => FreezeAgent(s, cut).0
    case Unfreeze(cut) => UnfreezeAgent(s, cut).0
    case Revoke(cut) => RevokeAgent(s, cut).0
    case Wait(d) => s.(now := s.now + d * 1000)
  }

  /** A new agent of an actor that holds no capability. */
  ghost predicate Fresh(s: State) {
    s.stage == DRAFT && s.lease.None? && forall k | 0 <= k < |s.db.caps| :: !Mine(s, s.db.caps[k])
  }

  function Run(start: State, events: seq<Event>, terms: Terms): State {
    if events == [] then start else Step(Run(start, events[..|events| - 1], terms), events[|events| - 1], terms)
  }

  /** No freeze or revocation failed between its change of status and its change of capabilities. */
  predicate Whole(e: Event) { (e.Freeze? ==> !e.freezeCut) && (e.Revoke? ==> e.revokeCut != AfterStatus) }

  lemma StepAnchored(s: State, e: Event, terms: Terms)
    requires Anchored(s)
    ensures Anchored(Step(s, e, terms))
  {
    hide Anchored, EstablishAssurance, WithoutLeases, WithStanding;
    match e
    case Begin => MoveAnchored(s, VERIFYING);
    case Establish(p, id, cut) => EstablishAnchored(s, p, id, terms, cut);
    case Freeze(_) =>
      BackedHasLease(s, FROZEN);
      if Movable(s, FROZEN) {
        MoveAnchored(s, FROZEN);
        StandingAnchored(Move(s, FROZEN), {ACTIVE}, SUSPENDED);
      }
    case Unfreeze(_) =>
      BackedHasLease(s, AGENT_ACTIVE);
      if Movable(s, AGENT_ACTIVE) {
        MoveAnchored(s, AGENT_ACTIVE);
        StandingAnchored(Move(s, AGENT_ACTIVE), {SUSPENDED}, ACTIVE);
      }
    case Revoke(_) =>
      MoveAnchored(s, AGENT_REVOKED);
      StandingAnchored(Move(s, AGENT_REVOKED), {ACTIVE, SUSPENDED}, REVOKED);
      LeasesRevokedAnchored(WithStanding(Move(s, AGENT_REVOKED), {ACTIVE, SUSPENDED}, REVOKED));
    case Wait(d) => WaitAnchored(s, d);
  }

  lemma WaitAnchored(s: State, d: nat)
    requires Anchored(s)
    ensures Anchored(s.(now := s.now + d * 1000))
  {
    var t := s.(now := s.now + d * 1000);
    forall k | 0 <= k < |t.db.caps| && Mine(t, t.db.caps[k]) ensures LeaseBound(t.db, t.db.caps[k]) {
      assert LeaseBound(s.db, s.db.caps[k]);
    }
  }

  /** An agent that can be frozen, or put in service, already has a recorded lease. */
  lemma BackedHasLease(s: State, to: AgentStatus)
    requires Anchored(s) && (to == FROZEN || to == AGENT_ACTIVE)
    ensures Movable(s, to) ==> s.lease.Some?
  {
  }

  lemma StepQuiet(s: State, e: Event, terms: Terms)
    requires Quiet(s) && Whole(e)
    ensures Quiet(Step(s, e, terms))
  {
    match e
    case Establish(p, id, cut) => EstablishQuiet(s, p, id, terms, cut);
    case Freeze(_) => if Movable(s, FROZEN) { StandingAfter(Move(s, FROZEN), {ACTIVE}, SUSPENDED, {ACTIVE}); }
    case Revoke(_) =>
      if Movable(s, AGENT_REVOKED) {
        StandingAfter(Move(s, AGENT_REVOKED), {ACTIVE, SUSPENDED}, REVOKED, {ACTIVE, SUSPENDED});
      }
    case _ =>
  }

  /** In every run, wherever failures strike. */
  lemma {:induction false} RunAnchored(start: State, events: seq<Event>, terms: Terms)
    requires Fresh(start)
    ensures Anchored(Run(start, events, terms))
  {
    hide Step;
    if events != [] {
      RunAnchored(start, events[..|events| - 1], terms);
      StepAnchored(Run(start, events[..|events| - 1], terms), events[|events| - 1], terms);
    }
  }

  /** In every run in which no freeze and no revocation was torn between status and capabilities. */
  lemma {:induction false} RunQuiet(start: State, events: seq<Event>, terms: Terms)
    requires Fresh(start) && forall e | e in events :: Whole(e)
    ensures Quiet(Run(start, events, terms))
  {
    hide Step;
    if events != [] {
      var init, e := events[..|events| - 1], events[|events| - 1];
      assert e in events && forall x | x in init :: x in events;
      RunQuiet(start, init, terms);
      StepQuiet(Run(start, init, terms), e, terms);
    }
  }

  // ---- main results ----

  /** Revoked is terminal: no operation, however interrupted, brings the agent back. */
  lemma RevokedIsTerminal(s: State, e: Event, terms: Terms)
    requires s.stage == AGENT_REVOKED
    ensures Step(s, e, terms).stage == AGENT_REVOKED
  {
    hide WithLease, WithSeed, WithStanding, WithoutLeases;
    if e.Establish? { AssuredHasLease(s, e.proofs, e.leaseId, terms); }
    StandingKeepsStage(s);
    if e.Establish? { LeaseKeepsStage(s, e.leaseId, LeaseSeconds(e.proofs, terms)); }
  }

  lemma StandingKeepsStage(s: State)
    ensures forall from, to :: WithStanding(s, from, to).stage == s.stage
    ensures forall from, to :: WithoutLeases(WithStanding(s, from, to)).stage == s.stage
  {
  }

  lemma LeaseKeepsStage(s: State, id: string, seconds: nat)
    ensures WithLease(s, id, seconds).stage == s.stage
  {
  }

  /** No unfreeze succeeds without a lease that is live at that moment. */
  lemma UnfreezeNeedsLiveLease(s: State, cut: bool)
    requires Anchored(s) && UnfreezeAgent(s, cut).1 != Refused
    ensures IsLeaseLive(LeaseNow(s), s.now)
  {
    BackedHasLease(s, AGENT_ACTIVE);
  }

  /** A capability of this agent passes the check only while the lease it hangs from is live. */
  lemma EnvelopeDiesWithLease(s: State, args: Exercise)
    requires Anchored(s) && args.actorId == s.actorId && CheckResult(s.db, args).Allowed?
    ensures
      var c := CheckResult(s.db, args).id;
      && c < |s.db.caps| && LeaseBound(s.db, s.db.caps[c])
      && IsLeaseLive(LeaseOf(s.db, s.db.caps[c].assuranceLeaseId.value), args.now)
  {
    CheckExact(s.db, args);
    var c := CheckResult(s.db, args).id;
    assert Usable(s.db, c, args);
    assert Mine(s, s.db.caps[c]);
  }

  /** A frozen or revoked agent's actor passes no check at all. */
  lemma StoppedMeansDenied(s: State, args: Exercise)
    requires Quiet(s) && (s.stage == FROZEN || s.stage == AGENT_REVOKED) && args.actorId == s.actorId
    ensures CheckResult(s.db, args) == Denied(None, NOT_FOUND)
  {
    CheckExact(s.db, args);
    forall i | 0 <= i < |s.db.caps| ensures !Candidate(s.db, i, args) {
      assert Mine(s, s.db.caps[i]) ==> s.db.caps[i].status != ACTIVE;
    }
  }

  /** A freeze torn between its writes leaves the agent frozen in name: quiet only if nothing was active. */
  lemma TornFreezeExact(s: State)
    requires Movable(s, FROZEN)
    ensures Quiet(FreezeAgent(s, true).0) <==> NoneStanding(s, {ACTIVE})
    ensures Quiet(FreezeAgent(FreezeAgent(s, true).0, false).0)
  {
    var torn := FreezeAgent(s, true).0;
    assert NoneStanding(torn, {ACTIVE}) <==> NoneStanding(s, {ACTIVE}) by {
      assert torn.db == s.db && torn.actorId == s.actorId;
    }
    StandingAfter(torn, {ACTIVE}, SUSPENDED, {ACTIVE});
  }

  /** Some run does end so: verified, then frozen by a torn freeze, with a capability that passes the check. */
  lemma TornFreezeRun(start: State, id: string, terms: Terms, args: Exercise)
    requires Fresh(start) && id !in start.db.leases && id != "" && terms.worldOnly > 0 && UsagesKnown(start.db)
    requires args.actorId == start.actorId && args.now == start.now && args.actionType == "CLAIM"
    ensures
      var own := Proofs(Some(Proof(true, true)), None);
      var t := Run(start, [Establish(own, id, NoCut), Freeze(true)], terms);
      t.stage == FROZEN && !NoneStanding(t, {ACTIVE}) && !Quiet(t) && CheckResult(t.db, args).Allowed?
  {
    hide CheckResult, EstablishAssurance;
    var own := Proofs(Some(Proof(true, true)), None);
    var verify, freeze := Establish(own, id, NoCut), Freeze(true);
    RefusedVerificationLeavesLease(start, own, id, terms);
    var backed := EstablishAssurance(start, own, id, terms, NoCut).0;
    VerifiedMeansUsable(start, own, id, terms, args);
    EstablishedRows(start, own, id, terms);
    EstablishKeeps(start, own, id, terms);
    var t := Run(start, [verify, freeze], terms);
    RunTwo(start, verify, freeze, terms);
    assert t == backed.(stage := FROZEN);
    var n := |start.db.caps|;
    assert t.db.caps[n] == SeedCapability(start, id, "CLAIM", 10);
    assert Mine(t, t.db.caps[n]) && t.db.caps[n].status == ACTIVE;
  }

  lemma RunTwo(start: State, a: Event, b: Event, terms: Terms)
    ensures Run(start, [a, b], terms) == Step(Step(start, a, terms), b, terms)
  {
    hide Step;
    assert [a, b][..1] == [a] && [a][..0] == [];
    assert Run(start, [a], terms) == Step(Run(start, [], terms), a, terms);
  }

  ghost predicate NoLeaseLeft(s: State) {
    forall id | id in s.ownLeases && id in s.db.leases :: s.db.leases[id].status != ACTIVE
  }

  /**
   * A revocation that fails after its status write is quiet only if there was nothing to withdraw; one that
   * fails before its last write is quiet, and leaves exactly the leases that were there. Calling it again
   * completes either, to the state an unbroken revocation reaches.
   */
  lemma TornRevocationExact(s: State, cut: RevokeCut)
    requires Movable(s, AGENT_REVOKED)
    ensures
      var (t, _) := RevokeAgent(s, cut);
      && (Quiet(t) <==> cut != AfterStatus || NoneStanding(s, {ACTIVE, SUSPENDED}))
      && (NoLeaseLeft(t) <==> cut == Complete || NoLeaseLeft(s))
      && RevokeAgent(t, Complete) == RevokeAgent(s, Complete)
  {
    var moved, t := Move(s, AGENT_REVOKED), RevokeAgent(s, cut).0;
    StandingAfter(moved, {ACTIVE, SUSPENDED}, REVOKED, {ACTIVE, SUSPENDED});
    if cut == AfterStatus {
      assert t.db == s.db && t.actorId == s.actorId;
    } else {
      WithdrawnAgain(moved);
      if cut == Complete { WithoutLeasesAgain(WithStanding(moved, {ACTIVE, SUSPENDED}, REVOKED)); }
    }
  }

  lemma WithdrawnAgain(s: State)
    ensures
      var t := WithStanding(s, {ACTIVE, SUSPENDED}, REVOKED);
      && WithStanding(t, {ACTIVE, SUSPENDED}, REVOKED) == t
      && WithStanding(WithoutLeases(t), {ACTIVE, SUSPENDED}, REVOKED) == WithoutLeases(t)
      && t.db.leases == s.db.leases && t.ownLeases == s.ownLeases
  {
    hide WithStanding, WithoutLeases;
    var t := WithStanding(s, {ACTIVE, SUSPENDED}, REVOKED);
    StandingAfter(s, {ACTIVE, SUSPENDED}, REVOKED, {ACTIVE, SUSPENDED});
    NothingToMove(t);
    LeasesOnly(t);
    NothingToMove(WithoutLeases(t));
    StandingOnly(s);
  }

  lemma LeasesOnly(s: State)
    ensures WithoutLeases(s).db.caps == s.db.caps && WithoutLeases(s).actorId == s.actorId
  {
  }

  lemma StandingOnly(s: State)
    ensures
      var t := WithStanding(s, {ACTIVE, SUSPENDED}, REVOKED);
      t.db.leases == s.db.leases && t.ownLeases == s.ownLeases
  {
  }

  lemma NothingToMove(s: State)
    requires NoneStanding(s, {ACTIVE, SUSPENDED})
    ensures WithStanding(s, {ACTIVE, SUSPENDED}, REVOKED) == s
  {
    var t := WithStanding(s, {ACTIVE, SUSPENDED}, REVOKED);
    StandingKeeps(s, {ACTIVE, SUSPENDED}, REVOKED);
    forall k | 0 <= k < |s.db.caps| ensures t.db.caps[k] == s.db.caps[k] {
      MovedRow(s, {ACTIVE, SUSPENDED}, REVOKED, k);
    }
    assert t.db.caps == s.db.caps;
  }

  lemma WithoutLeasesAgain(s: State)
    ensures NoLeaseLeft(WithoutLeases(s)) && WithoutLeases(WithoutLeases(s)) == WithoutLeases(s)
  {
    assert WithoutLeases(WithoutLeases(s)).db.leases == WithoutLeases(s).db.leases;
  }

  // ---- re-verification ----

  /** Only before it is in service can a verification complete. */
  predicate Verifiable(stage: AgentStatus) { stage == DRAFT || stage == VERIFYING || stage == HUMAN_BACKED }

  /**
   * With good proofs and a new lease, a verification completes exactly for a stage before service. In any
   * other stage it is refused, yet the lease it recorded stays: the agent points at it, it is live if it
   * has any term, and stage and capabilities are as they were.
   */
  lemma RefusedVerificationLeavesLease(s: State, p: Proofs, id: string, terms: Terms)
    requires ProofsOk(p) && id !in s.db.leases && id != ""
    ensures
      var (t, outcome) := EstablishAssurance(s, p, id, terms, NoCut);
      && (outcome == Succeeded <==> Verifiable(s.stage))
      && (outcome == Refused <==> !Verifiable(s.stage))
      && t.lease == Some(id)
      && (outcome == Refused ==>
            && t.stage == s.stage && t.db.caps == s.db.caps
            && (IsLeaseLive(LeaseNow(t), t.now) <==> LeaseSeconds(p, terms) > 0))
  {
    hide LeaseSeconds, SeedCapability;
  }

  /** Every capability of the actor hangs from a lease that is no longer live. */
  ghost predicate Lapsed(s: State) {
    forall k | 0 <= k < |s.db.caps| && Mine(s, s.db.caps[k]) && NeedsLease(s.db.caps[k]) ::
      !IsLeaseLive(LeaseOf(s.db, s.db.caps[k].assuranceLeaseId.value), s.now)
  }

  /** Past service's start there is no way back to a verification, and what is held has lapsed. */
  ghost predicate Stranded(s: State) { Anchored(s) && !Verifiable(s.stage) && Lapsed(s) }

  /** An actor whose capabilities have lapsed passes no check, now or later. */
  lemma LapsedMeansDenied(s: State, args: Exercise)
    requires Anchored(s) && Lapsed(s) && args.actorId == s.actorId && args.now >= s.now
    ensures CheckResult(s.db, args).Denied?
  {
    hide CheckResult;
    CheckExact(s.db, args);
    forall i | 0 <= i < |s.db.caps| ensures !Usable(s.db, i, args) {
      if Mine(s, s.db.caps[i]) { assert LeaseBound(s.db, s.db.caps[i]); }
    }
  }

  /**
   * A frozen agent whose capabilities have lapsed: re-verifying it, as the refused unfreeze advises, is
   * refused, but then unfreezing succeeds on the new lease, and the agent in service passes no check.
   */
  lemma ThawOnBorrowedLease(s: State, p: Proofs, id: string, terms: Terms, args: Exercise)
    requires Stranded(s) && s.stage == FROZEN && !IsLeaseLive(LeaseNow(s), s.now)
    requires ProofsOk(p) && id !in s.db.leases && id != "" && LeaseSeconds(p, terms) > 0
    requires args.actorId == s.actorId && args.now >= s.now
    ensures
      var (t, outcome) := EstablishAssurance(s, p, id, terms, NoCut);
      var (u, thawed) := UnfreezeAgent(t, false);
      && UnfreezeAgent(s, false) == (s, Refused) && outcome == Refused
      && thawed == Succeeded && u.stage == AGENT_ACTIVE && CheckResult(u.db, args).Denied?
  {
    hide LeaseSeconds, CheckResult, EstablishAssurance, Anchored;
    BackedHasLease(s, FROZEN);
    RecordedLease(s);
    RefusedVerificationLeavesLease(s, p, id, terms);
    var t := EstablishAssurance(s, p, id, terms, NoCut).0;
    StrandedStep(s, Establish(p, id, NoCut), terms);
    StrandedStep(t, Unfreeze(false), terms);
    var u := UnfreezeAgent(t, false).0;
    EstablishKeeps(s, p, id, terms);
    StandingKeeps(Move(t, AGENT_ACTIVE), {SUSPENDED}, ACTIVE);
    LapsedMeansDenied(u, args);
  }

  lemma RecordedLease(s: State)
    requires Anchored(s) && s.lease.Some?
    ensures s.lease.value != ""
  {
  }

  lemma EstablishKeeps(s: State, p: Proofs, id: string, terms: Terms)
    ensures
      var t := EstablishAssurance(s, p, id, terms, NoCut).0;
      t.actorId == s.actorId && t.now == s.now
  {
    hide LeaseSeconds, SeedCapability;
  }

  lemma StandingLapsed(s: State, from: set<Status>, to: Status)
    requires Lapsed(s)
    ensures Lapsed(WithStanding(s, from, to))
  {
    hide WithStanding;
    var t := WithStanding(s, from, to);
    StandingKeeps(s, from, to);
    StandingClock(s, from, to);
    forall k | 0 <= k < |t.db.caps| && Mine(t, t.db.caps[k]) && NeedsLease(t.db.caps[k])
      ensures !IsLeaseLive(LeaseOf(t.db, t.db.caps[k].assuranceLeaseId.value), t.now)
    {
      MovedRow(s, from, to, k);
    }
  }

  lemma StandingClock(s: State, from: set<Status>, to: Status)
    ensures WithStanding(s, from, to).now == s.now
  {
  }

  lemma RefusedLapsed(s: State, p: Proofs, id: string, terms: Terms, cut: Cut)
    requires Stranded(s)
    ensures
      var t := EstablishAssurance(s, p, id, terms, cut).0;
      Lapsed(t) && t.stage == s.stage
  {
    hide LeaseSeconds, SeedCapability;
    var t := EstablishAssurance(s, p, id, terms, cut).0;
    assert t.db.caps == s.db.caps && t.actorId == s.actorId && t.now == s.now;
    forall k | 0 <= k < |t.db.caps| && Mine(t, t.db.caps[k]) && NeedsLease(t.db.caps[k])
      ensures !IsLeaseLive(LeaseOf(t.db, t.db.caps[k].assuranceLeaseId.value), t.now)
    {
      assert LeaseBound(s.db, s.db.caps[k]);
    }
  }

  lemma StrandedStep(s: State, e: Event, terms: Terms)
    requires Stranded(s)
    ensures Stranded(Step(s, e, terms))
  {
    hide Anchored, Lapsed, WithStanding, EstablishAssurance, WithoutLeases;
    StepAnchored(s, e, terms);
    match e
    case Begin =>
    case Establish(p, id, cut) => RefusedLapsed(s, p, id, terms, cut);
    case Freeze(_) =>
      if Movable(s, FROZEN) {
        MoveLapsed(s, FROZEN);
        StandingLapsed(Move(s, FROZEN), {ACTIVE}, SUSPENDED);
        StandingKeeps(Move(s, FROZEN), {ACTIVE}, SUSPENDED);
      }
    case Unfreeze(_) =>
      if Movable(s, AGENT_ACTIVE) {
        MoveLapsed(s, AGENT_ACTIVE);
        StandingLapsed(Move(s, AGENT_ACTIVE), {SUSPENDED}, ACTIVE);
        StandingKeeps(Move(s, AGENT_ACTIVE), {SUSPENDED}, ACTIVE);
      }
    case Revoke(_) =>
      MoveLapsed(s, AGENT_REVOKED);
      StandingLapsed(Move(s, AGENT_REVOKED), {ACTIVE, SUSPENDED}, REVOKED);
      StandingKeepsStage(Move(s, AGENT_REVOKED));
      LeasesLapsed(WithStanding(Move(s, AGENT_REVOKED), {ACTIVE, SUSPENDED}, REVOKED));
    case Wait(d) => WaitLapsed(s, d);
  }

  lemma MoveLapsed(s: State, to: AgentStatus)
    requires Lapsed(s)
    ensures Lapsed(Move(s, to))
  {
  }

  lemma LeasesLapsed(s: State)
    requires Lapsed(s)
    ensures Lapsed(WithoutLeases(s))
  {
  }

  lemma WaitLapsed(s: State, d: nat)
    requires Lapsed(s)
    ensures Lapsed(s.(now := s.now + d * 1000))
  {
  }

  /**
   * Once an agent past the start of its service holds only lapsed capabilities, no sequence of the
   * service's operations gives its actor one that passes a check.
   */
  lemma {:induction false} StrandedForever(s: State, events: seq<Event>, terms: Terms, args: Exercise)
    requires Stranded(s) && args.actorId == s.actorId && args.now >= Run(s, events, terms).now
    ensures Stranded(Run(s, events, terms))
    ensures CheckResult(Run(s, events, terms).db, args).Denied?
  {
    hide CheckResult, Step;
    RunStranded(s, events, terms);
    LapsedMeansDenied(Run(s, events, terms), args);
  }

  lemma {:induction false} RunStranded(s: State, events: seq<Event>, terms: Terms)
    requires Stranded(s)
    ensures Stranded(Run(s, events, terms)) && Run(s, events, terms).actorId == s.actorId
  {
    hide Step;
    if events != [] {
      RunStranded(s, events[..|events| - 1], terms);
      StrandedStep(Run(s, events[..|events| - 1], terms), events[|events| - 1], terms);
      StepKeepsActor(Run(s, events[..|events| - 1], terms), events[|events| - 1], terms);
    }
  }

  lemma StepKeepsActor(s: State, e: Event, terms: Terms)
    ensures Step(s, e, terms).actorId == s.actorId
  {
    hide LeaseSeconds, SeedCapability;
  }

  // ---- whose proof it was ----

  /** Whose World challenge is pointed at changes nothing about the outcome. */
  lemma WorldOwnerIgnored(s: State, p: Proofs, own: bool, id: string, terms: Terms, cut: Cut)
    requires p.world.Some?
    ensures
      EstablishAssurance(s, p.(world := Some(p.world.value.(sameActor := own))), id, terms, cut)
      == EstablishAssurance(s, p, id, terms, cut)
  {
    hide WithLease, WithSeed;
  }

  /**
   * A verification that can complete is documented to rest on the actor's own passed proofs. It completes
   * exactly then, unless the World challenge pointed at passed but is another actor's.
   */
  lemma OwnProofsExact(s: State, p: Proofs, id: string, terms: Terms)
    requires Verifiable(s.stage) && id !in s.db.leases && id != ""
    ensures
      var completes := EstablishAssurance(s, p, id, terms, NoCut).1 == Succeeded;
      && (completes <==> ProofsOk(p))
      && ((completes <==> ProofsOwn(p)) <==> !(ProofsOk(p) && !p.world.value.sameActor))
  {
    if ProofsOk(p) { RefusedVerificationLeavesLease(s, p, id, terms); }
  }

  /** Another actor's passed challenge puts a draft in service, and its seed actions pass the check. */
  lemma BorrowedProofAccepted(s: State, id: string, terms: Terms, args: Exercise)
    requires s.stage == DRAFT && id !in s.db.leases && id != "" && terms.worldOnly > 0 && UsagesKnown(s.db)
    requires args.actorId == s.actorId && args.now == s.now && args.actionType == "CLAIM"
    ensures
      var borrowed := Proofs(Some(Proof(true, false)), None);
      var (t, outcome) := EstablishAssurance(s, borrowed, id, terms, NoCut);
      && !ProofsOwn(borrowed) && outcome == Succeeded && t.stage == AGENT_ACTIVE
      && CheckResult(t.db, args).Allowed?
  {
    hide EstablishAssurance, CheckResult;
    var borrowed := Proofs(Some(Proof(true, false)), None);
    RefusedVerificationLeavesLease(s, borrowed, id, terms);
    VerifiedMeansUsable(s, borrowed, id, terms, args);
  }

  /** Thawing undoes a freeze: with a live lease everything is as it was exactly when nothing was suspended before. */
  lemma ThawUndoesFreeze(s: State)
    requires s.stage == AGENT_ACTIVE && s.lease.Some? && IsLeaseLive(LeaseNow(s), s.now)
    ensures
      var (frozen, r) := FreezeAgent(s, false);
      r == Succeeded && (UnfreezeAgent(frozen, false) == (s, Succeeded) <==> NoneStanding(s, {SUSPENDED}))
  {
    var frozen := FreezeAgent(s, false).0;
    var thawed := UnfreezeAgent(frozen, false).0;
    StandingKeeps(Move(s, FROZEN), {ACTIVE}, SUSPENDED);
    StandingKeeps(Move(frozen, AGENT_ACTIVE), {SUSPENDED}, ACTIVE);
    forall k | 0 <= k < |s.db.caps|
      ensures thawed.db.caps[k] == s.db.caps[k] <==> !(Mine(s, s.db.caps[k]) && s.db.caps[k].status == SUSPENDED)
    {
      MovedRow(Move(s, FROZEN), {ACTIVE}, SUSPENDED, k);
      MovedRow(Move(frozen, AGENT_ACTIVE), {SUSPENDED}, ACTIVE, k);
    }
    if NoneStanding(s, {SUSPENDED}) { assert thawed.db.caps == s.db.caps; }
  }

  /** No usage row names a capability that does not exist yet. */
  ghost predicate UsagesKnown(db: Db) {
    forall u | u in db.usages :: u.capabilityId < |db.caps|
  }

  /** A completed verification leaves an agent in service whose two seed actions pass the check at once. */
  lemma VerifiedMeansUsable(s: State, p: Proofs, id: string, terms: Terms, args: Exercise)
    requires EstablishAssurance(s, p, id, terms, NoCut).1 == Succeeded && LeaseSeconds(p, terms) > 0
    requires UsagesKnown(s.db) && args.actorId == s.actorId && args.now == s.now
    requires args.actionType == "CLAIM" || args.actionType == "API_REQUEST"
    ensures
      var t := EstablishAssurance(s, p, id, terms, NoCut).0;
      t.stage == AGENT_ACTIVE && t.lease == Some(id) && CheckResult(t.db, args).Allowed?
  {
    hide CheckResult, Scan, FirstMiss, SeedCapability;
    var t, n := EstablishAssurance(s, p, id, terms, NoCut).0, |s.db.caps|;
    CheckExact(t.db, args);
    EstablishedRows(s, p, id, terms);
    if args.actionType == "CLAIM" {
      SeedUsable(t, s, id, n, "CLAIM", 10, args);
    } else {
      SeedUsable(t, s, id, n + 1, "API_REQUEST", 100, args);
    }
  }

  lemma EstablishedRows(s: State, p: Proofs, id: string, terms: Terms)
    requires EstablishAssurance(s, p, id, terms, NoCut).1 == Succeeded
    ensures
      var t := EstablishAssurance(s, p, id, terms, NoCut).0;
      && t.db.caps == s.db.caps + [SeedCapability(s, id, "CLAIM", 10), SeedCapability(s, id, "API_REQUEST", 100)]
      && t.db.usages == s.db.usages && t.stage == AGENT_ACTIVE && t.lease == Some(id) && id != ""
      && id in t.db.leases && t.db.leases[id] == Lease(ACTIVE, s.now + LeaseSeconds(p, terms) * 1000)
  {
    hide LeaseSeconds;
  }

  lemma SeedUsable(t: State, s: State, id: string, k: nat, action: string, frequency: nat, args: Exercise)
    requires k < |t.db.caps| && t.db.caps[k] == SeedCapability(s, id, action, frequency) && id != "" && frequency > 0
    requires |s.db.caps| <= k && t.db.usages == s.db.usages && UsagesKnown(s.db)
    requires id in t.db.leases && IsLeaseLive(Some(t.db.leases[id]), args.now)
    requires args.actorId == s.actorId && args.actionType == action
    ensures Usable(t.db, k, args)
  {
    NothingCounted(t.db.usages, k, WindowStart(args.now, DAY_SECONDS));
  }

  lemma {:induction false} NothingCounted(usages: seq<Usage>, k: nat, since: int)
    requires forall u | u in usages :: u.capabilityId != k
    ensures CountSince(usages, k, since) == 0
  {
    if usages != [] {
      var init, last := usages[..|usages| - 1], usages[|usages| - 1];
      assert last in usages && forall u | u in init :: u in usages;
      NothingCounted(init, k, since);
    }
  }

  /** Seconds of assurance, by the proofs shown: a liveness proof buys the longer term. */
  function Bought(p: Proofs, terms: Terms): nat {
    match p.liveness case None => terms.worldOnly case Some(_) => terms.worldPlusActive
  }

  /**
   * What a completed verification gives, as long as its two rows and its lease stand: any amount and any target, ten
   * claims and a hundred API requests in a day, until the seconds that the proofs bought are over.
   */
  lemma EnvelopeExact(s: State, p: Proofs, id: string, terms: Terms, db: Db, args: Exercise)
    requires EstablishAssurance(s, p, id, terms, NoCut).1 == Succeeded && args.actorId == s.actorId
    requires args.actionType == "CLAIM" || args.actionType == "API_REQUEST"
    requires
      var t, n := EstablishAssurance(s, p, id, terms, NoCut).0, |s.db.caps|;
      && n + 1 < |db.caps| && n + 1 < |t.db.caps| && db.caps[n..n + 2] == t.db.caps[n..n + 2]
      && id in db.leases && id in t.db.leases && db.leases[id] == t.db.leases[id]
    ensures
      var row := if args.actionType == "CLAIM" then |s.db.caps| else |s.db.caps| + 1;
      Usable(db, row, args) <==>
        && args.now < s.now + Bought(p, terms) * 1000
        && |UsesSince(db.usages, row, args.now - 24 * 3600 * 1000)| < (if args.actionType == "CLAIM" then 10 else 100)
  {
    hide Usable, UsesSince, EstablishAssurance, ParseAmount;
    EstablishedRows(s, p, id, terms);
    var t, n := EstablishAssurance(s, p, id, terms, NoCut).0, |s.db.caps|;
    var row := if args.actionType == "CLAIM" then n else n + 1;
    assert db.caps[row] == db.caps[n..n + 2][row - n] == t.db.caps[n..n + 2][row - n] == t.db.caps[row];
    UsableMeans(db, row, args);
    MissesEach(db, db.caps[row], row, args);
    assert ParseAmount(None) == None by { NoCeiling(); }
  }

  lemma NoCeiling()
    ensures ParseAmount(None) == None
  {
  }

  /** After ten claims recorded within a day, or a hundred API requests, the next is refused as too frequent. */
  lemma EnvelopeExhausted(s: State, p: Proofs, id: string, terms: Terms, db: Db, args: Exercise)
    requires EstablishAssurance(s, p, id, terms, NoCut).1 == Succeeded && args.actorId == s.actorId
    requires args.actionType == "CLAIM" || args.actionType == "API_REQUEST"
    requires
      var t, n := EstablishAssurance(s, p, id, terms, NoCut).0, |s.db.caps|;
      && n + 1 < |db.caps| && n + 1 < |t.db.caps| && db.caps[n..n + 2] == t.db.caps[n..n + 2]
      && id in db.leases && id in t.db.leases && db.leases[id] == t.db.leases[id]
    requires args.now < s.now + Bought(p, terms) * 1000
    requires
      var row := if args.actionType == "CLAIM" then |s.db.caps| else |s.db.caps| + 1;
      && (forall k | 0 <= k < |db.caps| && k != row :: !Asked(db.caps[k], args))
      && |UsesSince(db.usages, row, args.now - 24 * 3600 * 1000)| >= if args.actionType == "CLAIM" then 10 else 100
    ensures
      CheckResult(db, args) ==
        Denied(Some(if args.actionType == "CLAIM" then |s.db.caps| else |s.db.caps| + 1), FREQUENCY_EXCEEDED)
  {
    hide UsesSince, EstablishAssurance, ParseAmount, CheckResult;
    EstablishedRows(s, p, id, terms);
    var t, n := EstablishAssurance(s, p, id, terms, NoCut).0, |s.db.caps|;
    var row := if args.actionType == "CLAIM" then n else n + 1;
    assert db.caps[row] == db.caps[n..n + 2][row - n] == t.db.caps[n..n + 2][row - n] == t.db.caps[row];
    NoCeiling();
    SoleRefusal(db, row, args, FREQUENCY_EXCEEDED);
  }

  // ---- each operation, outcome by outcome ----

  /** Where an agent may move, told by where to: the stages from which a move there succeeds. */
  lemma MovableExact(s: State, to: AgentStatus)
    ensures Movable(s, to) <==>
      match to
      case DRAFT => s.stage in {DRAFT, VERIFYING}
      case VERIFYING => s.stage in {DRAFT, VERIFYING}
      case HUMAN_BACKED => s.stage in {VERIFYING, HUMAN_BACKED}
      case AGENT_ACTIVE => s.stage !in {DRAFT, VERIFYING, AGENT_REVOKED}
      case RESTRICTED => s.stage in {AGENT_ACTIVE, RESTRICTED, FROZEN}
      case FROZEN => s.stage !in {DRAFT, VERIFYING, AGENT_REVOKED}
      case AGENT_REVOKED => true
  {
  }

  /** Only the standing of the actor's own rows changed, and of those only where it was one of `from`. */
  ghost predicate OnlyStandings(s: State, t: State, from: set<Status>, to: Status) {
    && t.agentId == s.agentId && t.actorId == s.actorId && t.lease == s.lease && t.ownLeases == s.ownLeases
    && t.now == s.now && t.db.usages == s.db.usages && |t.db.caps| == |s.db.caps|
    && forall k | 0 <= k < |s.db.caps| ::
      var c := s.db.caps[k];
      t.db.caps[k] == if c.actorId == s.actorId && c.status in from then c.(status := to) else c
  }

  lemma StandingsMove(s: State, from: set<Status>, to: Status)
    ensures OnlyStandings(s, WithStanding(s, from, to), from, to)
  {
  }

  /** Verification begins from DRAFT, or again; from anywhere else it is refused and nothing changes. */
  lemma BeginExact(s: State)
    ensures BeginVerification(s) ==
      if s.stage == DRAFT || s.stage == VERIFYING then (s.(stage := VERIFYING), Succeeded) else (s, Refused)
  {
  }

  /** A freeze suspends what is active, or, when it fails half way, has changed the stage and nothing else. */
  lemma FreezeExact(s: State, cut: bool)
    ensures
      var (t, r) := FreezeAgent(s, cut);
      if s.stage in {DRAFT, VERIFYING, AGENT_REVOKED} then t == s && r == Refused
      else if cut then t == s.(stage := FROZEN) && r == Interrupted
      else t.stage == FROZEN && r == Succeeded && t.db.leases == s.db.leases && OnlyStandings(s, t, {ACTIVE}, SUSPENDED)
  {
    StandingsMove(s.(stage := FROZEN), {ACTIVE}, SUSPENDED);
  }

  /** The lease an agent names has run out, was ended, or is not on record. */
  predicate LeaseDead(s: State) {
    && s.lease.Some? && s.lease.value != ""
    && (s.lease.value in s.db.leases ==>
          s.db.leases[s.lease.value].status != ACTIVE || s.db.leases[s.lease.value].expiresAt <= s.now)
  }

  /** A thaw is refused on a dead lease and outside service; otherwise it reactivates everything suspended. */
  lemma UnfreezeExact(s: State, cut: bool)
    ensures
      var (t, r) := UnfreezeAgent(s, cut);
      if LeaseDead(s) || s.stage in {DRAFT, VERIFYING, AGENT_REVOKED} then t == s && r == Refused
      else if cut then t == s.(stage := AGENT_ACTIVE) && r == Interrupted
      else
        && t.stage == AGENT_ACTIVE && r == Succeeded && t.db.leases == s.db.leases
        && OnlyStandings(s, t, {SUSPENDED}, ACTIVE)
  {
    StandingsMove(s.(stage := AGENT_ACTIVE), {SUSPENDED}, ACTIVE);
  }

  /** The actor's own active leases ended, and all others as they were. */
  predicate OwnLeasesEnded(s: State, t: State) {
    && t.db.leases.Keys == s.db.leases.Keys
    && forall id | id in s.db.leases ::
      t.db.leases[id] == if id in s.ownLeases && s.db.leases[id].status == ACTIVE
                         then Lease(REVOKED, s.db.leases[id].expiresAt) else s.db.leases[id]
  }

  /** A revocation is never refused; a failure leaves the leases, or the capabilities too, for a second call. */
  lemma RevokeExact(s: State, cut: RevokeCut)
    ensures
      var (t, r) := RevokeAgent(s, cut);
      && t.stage == AGENT_REVOKED && (r == Succeeded <==> cut == Complete) && r != Refused
      && (cut == AfterStatus ==> t.db == s.db)
      && (if cut == AfterStatus then t == s.(stage := AGENT_REVOKED)
          else OnlyStandings(s, t, {ACTIVE, SUSPENDED}, REVOKED))
      && (if cut == Complete then OwnLeasesEnded(s, t) else t.db.leases == s.db.leases)
  {
    StandingsMove(s.(stage := AGENT_REVOKED), {ACTIVE, SUSPENDED}, REVOKED);
  }

  /** The capability a verification seeds: no amount, any target, so many uses a day, bound to the lease. */
  function Seeded(s: State, lease: string, action: string, uses: int): Capability {
    Capability(s.actorId, action, "agent:" + s.agentId, false, Limits(None, Some(uses), Some(24 * 3600), [], None),
               ACTIVE, None, Some(lease))
  }

  /** How many of the two seed capabilities are written before a failure strikes. */
  function SeedsBefore(cut: Cut): nat {
    match cut case NoCut => 2 case AfterGrants => 2 case AfterFirstGrant => 1 case _ => 0
  }

  predicate Proven(p: Proofs) {
    && p.world.Some? && p.world.value.passed
    && (p.liveness.Some? ==> p.liveness.value.passed && p.liveness.value.sameActor)
  }

  /** The lease is on record for the seconds bought, and is the agent's unless the failure came in between. */
  ghost predicate LeaseTaken(s: State, t: State, p: Proofs, id: string, terms: Terms, cut: Cut) {
    && t.agentId == s.agentId && t.actorId == s.actorId && t.now == s.now && t.db.usages == s.db.usages
    && t.db.leases == s.db.leases[id := Lease(ACTIVE, s.now + Bought(p, terms) * 1000)]
    && t.ownLeases == s.ownLeases + {id} && t.lease == if cut == AfterLease then s.lease else Some(id)
  }

  /**
   * Establishing assurance, failure by failure. Without a passed World proof, or with a liveness proof that did not
   * pass or is not the actor's own, it is refused and changes nothing. Otherwise a draft moves on; then the lease is
   * recorded for the seconds the proofs bought, and given to the agent; then an agent past its verification is
   * refused; and then it is backed, given its two seeds, and put in service.
   */
  lemma EstablishExact(s: State, p: Proofs, id: string, terms: Terms, cut: Cut)
    ensures
      var (t, r) := EstablishAssurance(s, p, id, terms, cut);
      var verifying := if s.stage == DRAFT then VERIFYING else s.stage;
      var welcome := verifying == VERIFYING || verifying == HUMAN_BACKED;
      if !Proven(p) then t == s && r == Refused
      else if cut == AfterVerifying || id in s.db.leases || id == "" then
        t == s.(stage := verifying) && r == Interrupted
      else if cut == AfterLease || cut == AfterAssignment || !welcome then
        && LeaseTaken(s, t, p, id, terms, cut) && t.stage == verifying && t.db.caps == s.db.caps
        && r == if cut == AfterLease || cut == AfterAssignment then Interrupted else Refused
      else
        && LeaseTaken(s, t, p, id, terms, cut)
        && t.stage == (if cut == NoCut then AGENT_ACTIVE else HUMAN_BACKED)
        && t.db.caps == s.db.caps + [Seeded(s, id, "CLAIM", 10), Seeded(s, id, "API_REQUEST", 100)][..SeedsBefore(cut)]
        && r == if cut == NoCut then Succeeded else Interrupted
  {
    var verifying := if s.stage == DRAFT then VERIFYING else s.stage;
    if Proven(p) && (verifying == VERIFYING || verifying == HUMAN_BACKED) && id !in s.db.leases && id != ""
       && cut !in {AfterVerifying, AfterLease, AfterAssignment} {
      SeedsExact(s, p, id, terms, cut);
    }
  }

  lemma SeedsExact(s: State, p: Proofs, id: string, terms: Terms, cut: Cut)
    requires Proven(p) && id !in s.db.leases && id != "" && s.stage in {DRAFT, VERIFYING, HUMAN_BACKED}
    requires cut !in {AfterVerifying, AfterLease, AfterAssignment}
    ensures
      var (t, r) := EstablishAssurance(s, p, id, terms, cut);
      && LeaseTaken(s, t, p, id, terms, cut)
      && t.stage == (if cut == NoCut then AGENT_ACTIVE else HUMAN_BACKED)
      && t.db.caps == s.db.caps + [Seeded(s, id, "CLAIM", 10), Seeded(s, id, "API_REQUEST", 100)][..SeedsBefore(cut)]
      && r == if cut == NoCut then Succeeded else Interrupted
  {
    var seeds := [Seeded(s, id, "CLAIM", 10), Seeded(s, id, "API_REQUEST", 100)];
    assert seeds[..0] == [] && seeds[..1] == [seeds[0]] && seeds[..2] == seeds;
    assert s.db.caps + [] == s.db.caps && s.db.caps + seeds == s.db.caps + [seeds[0]] + [seeds[1]];
  }

  /** The lease of a completed verification is live for the seconds that the proofs bought, to the second. */
  lemma LeaseRunsOut(s: State, p: Proofs, id: string, terms: Terms, d: nat)
    requires EstablishAssurance(s, p, id, terms, NoCut).1 == Succeeded
    ensures
      var t := Step(EstablishAssurance(s, p, id, terms, NoCut).0, Wait(d), terms);
      IsLeaseLive(LeaseNow(t), t.now) <==> d < Bought(p, terms)
  {
    hide EstablishAssurance;
    EstablishExact(s, p, id, terms, NoCut);
  }
}
