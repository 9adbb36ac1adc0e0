/** Every interleaving of screening callers with verification, finalization and reissue (`orchestrator.ts`). */
module ClaimRuns {
  import opened Common
  import opened CapabilityTypes
  import opened Scoring
  import opened PolicyEngine
  import opened ClaimGate

  datatype Screening = Screening(
    claimId: nat, decision: Decision, cluster: Option<string>, score: real, assurance: Option<string>,
    receiptId: Option<nat>, challengeId: Option<nat>)

  /** Where one call of `screenClaim` stands. */
  datatype Pc =
    | Start
    | Creating
    | Conflicted
    | Have(claim: nat, seen: Decision, cluster: Option<string>)
    | Computed(claim: nat, computed: PolicyDecision)
    | Done(result: Screening)
    | Aborted

  datatype Caller = Caller(wallet: string, campaign: string, pc: Pc)

  datatype World = World(db: Db, callers: seq<Caller>)

  datatype Event =
    | Begin(wallet: string, campaign: string)
    | Find(caller: nat)
    | Create(caller: nat)
    | Reread(caller: nat)
    | Replay(caller: nat)
    | Compute(caller: nat, risk: ClusterRisk, thresholds: seq<Threshold>)
    | Write(caller: nat)
    | Abort(caller: nat)
    | Verify(claim: nat, outcome: ProofOutcome)
    | Finalize(claim: nat)
    | ReissueChallenge(claim: nat)
    | Wait(ms: nat)

  /** The answer built from what is stored: receipt and newest challenge now, decision and cluster as seen. */
  function Stored(db: Db, claim: nat, decision: Decision, cluster: Option<string>): Screening {
    var receipt := if claim in db.receipts then Some(db.receipts[claim]) else None;
    Screening(claim, decision, cluster,
              if receipt.Some? then receipt.value.score else 0.0,
              if receipt.Some? then receipt.value.assurance else None,
              if receipt.Some? then Some(receipt.value.id) else None,
              LatestChallenge(db, claim))
  }

  /** The answer of the locked write: the stored one when raced, else what this caller wrote. */
  function Answer(db: Db, claim: nat, d: PolicyDecision, clocks: Clocks): Screening
    requires claim < |db.claims|
  {
    if Sticky(db.claims[claim].decision) then Stored(db, claim, db.claims[claim].decision, db.claims[claim].cluster)
    else
      var challenge :=
        if d.decision == CHALLENGE then Some(IssueOrReuse(db, claim, db.claims[claim].campaign, clocks).1) else None;
      Screening(claim, d.decision, d.clusterId, d.riskScore, d.requiredAssurance, Some(ReceiptId(db, claim)), challenge)
  }

  function At(w: World, i: nat, pc: Pc): World
    requires i < |w.callers|
  {
    w.(callers := w.callers[i := w.callers[i].(pc := pc)])
  }

  function Seen(db: Db, claim: nat): Pc
    requires claim < |db.claims|
  {
    Have(claim, db.claims[claim].decision, db.claims[claim].cluster)
  }

  /** A caller's next step, when it is that caller's turn for it. */
  function CallerStep(w: World, e: Event, i: nat, clocks: Clocks): World
    requires i < |w.callers|
    requires forall j | 0 <= j < |w.callers| :: ClaimKnown(w.db, w.callers[j].pc)
  {
    var c := w.callers[i];
    assert ClaimKnown(w.db, c.pc);
    var found := FindClaim(w.db, c.wallet, c.campaign);
    match e
    case Find(_) =>
      if c.pc != Start then w else if found.Some? then At(w, i, Seen(w.db, found.value)) else At(w, i, Creating)
    case Create(_) =>
      if c.pc != Creating then w
      else if found.Some? then At(w, i, Conflicted)
      else
        var db' := Created(w.db, c.wallet, c.campaign);
        At(w.(db := db'), i, Seen(db', |w.db.claims|))
    case Reread(_) =>
      if c.pc != Conflicted then w else if found.Some? then At(w, i, Seen(w.db, found.value)) else At(w, i, Aborted)
    case Replay(_) =>
      if c.pc.Have? && Sticky(c.pc.seen) then At(w, i, Done(Stored(w.db, c.pc.claim, c.pc.seen, c.pc.cluster))) else w
    case Compute(_, risk, thresholds) =>
      if c.pc.Have? && !Sticky(c.pc.seen) then At(w, i, Computed(c.pc.claim, Decide(risk, thresholds))) else w
    case Write(_) =>
      if c.pc.Computed? then
        At(w.(db := Screened(w.db, c.pc.claim, c.pc.computed, clocks)), i,
           Done(Answer(w.db, c.pc.claim, c.pc.computed, clocks)))
      else w
    case Abort(_) => if c.pc.Done? then w else At(w, i, Aborted)
    case _ => w
  }

  predicate ClaimKnown(db: Db, pc: Pc) {
    match pc
    case Have(claim, _, _) => claim < |db.claims|
    case Computed(claim, _) => claim < |db.claims|
    case _ => true
  }

  predicate ByCaller(e: Event) {
    e.Find? || e.Create? || e.Reread? || e.Replay? || e.Compute? || e.Write? || e.Abort?
  }

  ghost predicate Runnable(w: World) {
    Sound(w.db) && forall j | 0 <= j < |w.callers| :: ClaimKnown(w.db, w.callers[j].pc)
  }

  ghost function DbStep(db: Db, e: Event, clocks: Clocks): Db
    requires Sound(db)
  {
    match e
    case Verify(claim, outcome) => if claim < |db.claims| then Verification(db, claim, outcome).0 else db
    case Finalize(claim) =>
      if claim < |db.claims| then (ChallengedHasReceipt(db, claim); Finalization(db, claim).0) else db
    case ReissueChallenge(claim) => if claim < |db.claims| then Reissue(db, claim, clocks) else db
    case Wait(ms) => db.(now := db.now + ms)
    case _ => db
  }

  ghost function Step(w: World, e: Event, clocks: Clocks): World
    requires Runnable(w)
  {
    if ByCaller(e) then (if e.caller < |w.callers| then CallerStep(w, e, e.caller, clocks) else w)
    else if e.Begin? then w.(callers := w.callers + [Caller(ToLower(e.wallet), e.campaign, Start)])
    else w.(db := DbStep(w.db, e, clocks))
  }

  // ---- what one step keeps of every claim ----

  /** A decision that was handed out stands, except that a challenge is resolved once. */
  predicate Follows(d: Decision, later: Decision) {
    later == d || d == PENDING_REVIEW || (d == CHALLENGE && (later == ALLOW || later == BLOCK))
  }

  /** The parts of a receipt that are never rewritten once the claim is decided. */
  predicate SameFinding(r: Receipt, later: Receipt) {
    r.id == later.id && r.score == later.score && r.assurance == later.assurance && r.cluster == later.cluster
  }

  predicate ClaimKept(db: Db, db': Db, i: nat) {
    && i < |db.claims| && i < |db'.claims|
    && db.claims[i].wallet == db'.claims[i].wallet && db.claims[i].campaign == db'.claims[i].campaign
    && Follows(db.claims[i].decision, db'.claims[i].decision)
    && (Sticky(db.claims[i].decision) ==>
          && i in db.receipts && i in db'.receipts && SameFinding(db.receipts[i], db'.receipts[i])
          && db.claims[i].cluster == db'.claims[i].cluster)
  }

  /** A challenge stays with its claim and action, and once resolved it never changes. */
  predicate ChallengeKept(c: Challenge, c': Challenge) {
    c.claimId == c'.claimId && c.action == c'.action && (c.challengeStatus != ISSUED ==> c' == c)
  }

  ghost predicate Kept(db: Db, db': Db) {
    && |db.claims| <= |db'.claims| && |db.challenges| <= |db'.challenges|
    && (forall i | 0 <= i < |db.claims| :: ClaimKept(db, db', i))
    && (forall k | 0 <= k < |db.challenges| :: ChallengeKept(db.challenges[k], db'.challenges[k]))
  }

  lemma KeptTrans(a: Db, b: Db, c: Db)
    requires Kept(a, b) && Kept(b, c)
    ensures Kept(a, c)
  {
    forall i | 0 <= i < |a.claims| ensures ClaimKept(a, c, i) {
      assert ClaimKept(a, b, i) && ClaimKept(b, c, i);
    }
    forall k | 0 <= k < |a.challenges| ensures ChallengeKept(a.challenges[k], c.challenges[k]) {
      assert ChallengeKept(a.challenges[k], b.challenges[k]) && ChallengeKept(b.challenges[k], c.challenges[k]);
    }
  }

  /** Nothing is lost when claims, receipts and challenge owners are untouched. */
  lemma KeptSame(db: Db, db': Db)
    requires Sound(db) && db'.claims == db.claims && db'.receipts == db.receipts
    requires |db.challenges| <= |db'.challenges|
    requires forall k | 0 <= k < |db.challenges| :: ChallengeKept(db.challenges[k], db'.challenges[k])
    ensures Kept(db, db')
  {
    forall i | 0 <= i < |db.claims| ensures ClaimKept(db, db', i) { ChallengedHasReceipt(db, i); }
  }

  lemma CreatedKept(db: Db, wallet: string, campaign: string)
    requires Sound(db)
    ensures Kept(db, Created(db, wallet, campaign))
  {
    forall i | 0 <= i < |db.claims| ensures ClaimKept(db, Created(db, wallet, campaign), i) {
      ChallengedHasReceipt(db, i);
    }
  }

  lemma OwnersKept(db: Db, claim: nat, action: string, clocks: Clocks)
    ensures
      var db' := IssueOrReuse(db, claim, action, clocks).0;
      && |db.challenges| <= |db'.challenges| && db'.claims == db.claims && db'.receipts == db.receipts
      && forall k | 0 <= k < |db.challenges| :: ChallengeKept(db.challenges[k], db'.challenges[k])
  {
    hide RecentPass, TimedOut;
  }

  lemma RecordedKept(before: Db, db: Db, claim: nat, d: PolicyDecision, challenge: Option<nat>)
    requires Sound(before) && claim < |before.claims| && before.claims[claim].decision == PENDING_REVIEW
    requires db.claims == before.claims && db.receipts == before.receipts
    requires |before.challenges| <= |db.challenges|
    requires forall k | 0 <= k < |before.challenges| :: ChallengeKept(before.challenges[k], db.challenges[k])
    ensures Kept(before, Recorded(db, claim, d, challenge))
  {
    forall i | 0 <= i < |before.claims| ensures ClaimKept(before, Recorded(db, claim, d, challenge), i) {
      ChallengedHasReceipt(before, i);
    }
  }

  lemma ScreenedKept(db: Db, claim: nat, d: PolicyDecision, clocks: Clocks)
    requires Sound(db) && claim < |db.claims|
    ensures Kept(db, Screened(db, claim, d, clocks))
  {
    hide IssueOrReuse, Recorded, Sound;
    if Sticky(db.claims[claim].decision) {
      KeptSame(db, db);
    } else if d.decision == CHALLENGE {
      var (issued, k) := IssueOrReuse(db, claim, db.claims[claim].campaign, clocks);
      OwnersKept(db, claim, db.claims[claim].campaign, clocks);
      RecordedKept(db, issued, claim, d, Some(k));
    } else {
      RecordedKept(db, db, claim, d, None);
    }
  }

  lemma VerificationKept(db: Db, claim: nat, outcome: ProofOutcome)
    requires Sound(db)
    ensures Kept(db, Verification(db, claim, outcome).0)
  {
    hide Sound, Used;
    KeptSame(db, Verification(db, claim, outcome).0);
  }

  lemma FinalizationKept(db: Db, claim: nat)
    requires Sound(db) && claim < |db.claims|
    ensures db.claims[claim].decision == CHALLENGE ==> claim in db.receipts
    ensures Kept(db, Finalization(db, claim).0)
  {
    ChallengedHasReceipt(db, claim);
    forall i | 0 <= i < |db.claims| ensures ClaimKept(db, Finalization(db, claim).0, i) {
      ChallengedHasReceipt(db, i);
    }
  }

  lemma ReissueKept(db: Db, claim: nat, clocks: Clocks)
    requires Sound(db) && claim < |db.claims|
    ensures Kept(db, Reissue(db, claim, clocks))
  {
    hide IssueOrReuse, Sound;
    OwnersKept(db, claim, db.claims[claim].campaign, clocks);
    KeptSame(db, Reissue(db, claim, clocks));
  }

  lemma DbStepOk(db: Db, e: Event, clocks: Clocks)
    requires Sound(db)
    ensures Sound(DbStep(db, e, clocks)) && Kept(db, DbStep(db, e, clocks))
  {
    hide Sound, Kept;
    match e
    case Verify(claim, outcome) =>
      VerificationSound(db, claim, outcome);
      VerificationKept(db, claim, outcome);
      KeptSame(db, db);
    case Finalize(claim) =>
      KeptSame(db, db);
      if claim < |db.claims| {
        FinalizationSound(db, claim);
        FinalizationKept(db, claim);
      }
    case ReissueChallenge(claim) =>
      KeptSame(db, db);
      if claim < |db.claims| {
        ReissueSound(db, claim, clocks);
        ReissueKept(db, claim, clocks);
      }
    case Wait(ms) => WaitSound(db, ms);
    case _ => KeptSame(db, db);
  }

  lemma WaitSound(db: Db, ms: nat)
    requires Sound(db)
    ensures Sound(db.(now := db.now + ms)) && Kept(db, db.(now := db.now + ms))
  {
    var db' := db.(now := db.now + ms);
    KeptSame(db, db');
    forall i | 0 <= i < |db.claims| ensures ClaimOk(db', i) { ClaimOkFrame(db, db', i); }
  }

  // ---- what a caller may rely on ----

  predicate Mine(db: Db, c: Caller, claim: nat) {
    claim < |db.claims| && db.claims[claim].wallet == c.wallet && db.claims[claim].campaign == c.campaign
  }

  /** A decision that was handed out, with the findings of the claim's own receipt. */
  predicate Backed(db: Db, r: Screening) {
    && r.claimId < |db.claims| && r.claimId in db.receipts
    && Follows(r.decision, db.claims[r.claimId].decision)
    && r.cluster == db.claims[r.claimId].cluster == db.receipts[r.claimId].cluster
    && r.score == db.receipts[r.claimId].score && r.assurance == db.receipts[r.claimId].assurance
    && r.receiptId == Some(db.receipts[r.claimId].id)
    && (r.decision == CHALLENGE ==>
          r.challengeId.Some? && r.challengeId.value < |db.challenges|
          && db.challenges[r.challengeId.value].claimId == r.claimId)
  }

  predicate CallerOk(db: Db, c: Caller) {
    match c.pc
    case Have(claim, seen, cluster) =>
      Mine(db, c, claim)
      && (Sticky(seen) ==> Follows(seen, db.claims[claim].decision) && cluster == db.claims[claim].cluster)
      && (seen == CHALLENGE ==> Challenged(db, claim))
    case Computed(claim, d) => Mine(db, c, claim) && Coherent(d)
    case Done(r) => Mine(db, c, r.claimId) && (Sticky(r.decision) ==> Backed(db, r))
    case _ => true
  }

  ghost predicate WorldOk(w: World) {
    Sound(w.db) && forall j | 0 <= j < |w.callers| :: CallerOk(w.db, w.callers[j])
  }

  lemma WorldRunnable(w: World)
    requires WorldOk(w)
    ensures Runnable(w)
  {
    forall j | 0 <= j < |w.callers| ensures ClaimKnown(w.db, w.callers[j].pc) {
      assert CallerOk(w.db, w.callers[j]);
    }
  }

  /** What a caller relies on survives anything that keeps the claims. */
  lemma CallerKept(db: Db, db': Db, c: Caller)
    requires Sound(db) && Sound(db') && Kept(db, db') && CallerOk(db, c)
    ensures CallerOk(db', c)
  {
    hide ClaimOk, ChallengesOk, UniqueClaims;
    match c.pc
    case Have(claim, seen, cluster) =>
      assert ClaimKept(db, db', claim);
      if seen == CHALLENGE { ChallengedKept(db, db', claim); }
    case Computed(claim, d) =>
      assert ClaimKept(db, db', claim);
    case Done(r) =>
      assert ClaimKept(db, db', r.claimId);
      if Sticky(r.decision) { BackedKept(db, db', r); }
    case _ =>
  }

  lemma ChallengedKept(db: Db, db': Db, claim: nat)
    requires Sound(db) && Sound(db') && Kept(db, db') && claim < |db.claims|
    requires Sticky(db.claims[claim].decision) && Challenged(db, claim)
    ensures Challenged(db', claim)
  {
    assert ClaimKept(db, db', claim) && ClaimOk(db, claim) && ClaimOk(db', claim);
  }

  lemma BackedKept(db: Db, db': Db, r: Screening)
    requires Sound(db) && Sound(db') && Kept(db, db') && Backed(db, r) && Sticky(r.decision)
    ensures Backed(db', r)
  {
    assert ClaimKept(db, db', r.claimId);
    assert ClaimOk(db', r.claimId);
  }

  lemma StoredBacked(db: Db, claim: nat, seen: Decision, cluster: Option<string>)
    requires Sound(db) && claim < |db.claims| && Sticky(seen)
    requires Follows(seen, db.claims[claim].decision) && cluster == db.claims[claim].cluster
    requires seen == CHALLENGE ==> Challenged(db, claim)
    ensures Backed(db, Stored(db, claim, seen, cluster))
  {
    assert ClaimOk(db, claim);
  }

  /** The winner of the locked write answers what it wrote, every later one what it finds written. */
  lemma AnswerBacked(db: Db, claim: nat, d: PolicyDecision, clocks: Clocks)
    requires Sound(db) && claim < |db.claims| && Coherent(d)
    ensures
      var db', r := Screened(db, claim, d, clocks), Answer(db, claim, d, clocks);
      r.claimId == claim && (Sticky(r.decision) ==> Backed(db', r))
  {
    hide Sound, IssueOrReuse;
    if Sticky(db.claims[claim].decision) {
      StickyChallenged(db, claim);
      StoredBacked(db, claim, db.claims[claim].decision, db.claims[claim].cluster);
    } else if d.decision == CHALLENGE {
      SoundChallenges(db);
      IssueOrReuseEffect(db, claim, db.claims[claim].campaign, clocks);
      assert Challenges(db, IssueOrReuse(db, claim, db.claims[claim].campaign, clocks).0, claim,
                        IssueOrReuse(db, claim, db.claims[claim].campaign, clocks).1);
    }
  }

  lemma SoundChallenges(db: Db)
    requires Sound(db)
    ensures ChallengesOk(db)
  {
  }

  lemma StickyChallenged(db: Db, claim: nat)
    requires Sound(db) && claim < |db.claims|
    ensures db.claims[claim].decision == CHALLENGE ==> Challenged(db, claim)
  {
    assert ClaimOk(db, claim);
  }

  // ---- the invariant over all runs ----

  /** One caller moved to `pc`; the others rely on what the new tables keep. */
  lemma OthersKept(w: World, db': Db, i: nat, pc: Pc)
    requires WorldOk(w) && i < |w.callers| && Sound(db') && Kept(w.db, db')
    requires CallerOk(db', w.callers[i].(pc := pc))
    ensures WorldOk(At(w.(db := db'), i, pc))
  {
    hide Sound, Kept, CallerOk;
    var w' := At(w.(db := db'), i, pc);
    forall j | 0 <= j < |w'.callers| ensures CallerOk(w'.db, w'.callers[j]) {
      if j != i { CallerKept(w.db, db', w.callers[j]); }
    }
  }

  lemma SeenOk(db: Db, c: Caller, claim: nat)
    requires Sound(db) && Mine(db, c, claim)
    ensures CallerOk(db, c.(pc := Seen(db, claim)))
  {
    StickyChallenged(db, claim);
  }

  lemma CreateStepOk(w: World, i: nat)
    requires WorldOk(w) && i < |w.callers| && w.callers[i].pc == Creating
    requires FindClaim(w.db, w.callers[i].wallet, w.callers[i].campaign).None?
    ensures
      var db' := Created(w.db, w.callers[i].wallet, w.callers[i].campaign);
      WorldOk(At(w.(db := db'), i, Seen(db', |w.db.claims|))) && Kept(w.db, db')
  {
    var c := w.callers[i];
    var db' := Created(w.db, c.wallet, c.campaign);
    CreatedSound(w.db, c.wallet, c.campaign);
    CreatedKept(w.db, c.wallet, c.campaign);
    hide Sound, Kept;
    SeenOk(db', c, |w.db.claims|);
    OthersKept(w, db', i, Seen(db', |w.db.claims|));
  }

  lemma WriteStepOk(w: World, i: nat, clocks: Clocks)
    requires WorldOk(w) && i < |w.callers| && w.callers[i].pc.Computed?
    requires w.callers[i].pc.claim < |w.db.claims|
    ensures
      var pc := w.callers[i].pc;
      var db' := Screened(w.db, pc.claim, pc.computed, clocks);
      WorldOk(At(w.(db := db'), i, Done(Answer(w.db, pc.claim, pc.computed, clocks)))) && Kept(w.db, db')
  {
    hide Sound, Kept, Screened, Answer;
    var c := w.callers[i];
    var claim, d := c.pc.claim, c.pc.computed;
    var db', r := Screened(w.db, claim, d, clocks), Answer(w.db, claim, d, clocks);
    assert CallerOk(w.db, c);
    ScreenedSound(w.db, claim, d, clocks);
    ScreenedKept(w.db, claim, d, clocks);
    AnswerBacked(w.db, claim, d, clocks);
    MineKept(w.db, db', c, claim);
    OthersKept(w, db', i, Done(r));
  }

  lemma MineKept(db: Db, db': Db, c: Caller, claim: nat)
    requires Kept(db, db') && Mine(db, c, claim)
    ensures Mine(db', c, claim)
  {
    assert ClaimKept(db, db', claim);
  }

  lemma CallerStepOk(w: World, e: Event, i: nat, clocks: Clocks)
    requires WorldOk(w) && Runnable(w) && i < |w.callers|
    ensures WorldOk(CallerStep(w, e, i, clocks)) && Kept(w.db, CallerStep(w, e, i, clocks).db)
  {
    hide Sound, Kept, Screened, Answer, Created, Backed;
    var c := w.callers[i];
    assert CallerOk(w.db, c);
    KeptSame(w.db, w.db);
    var found := FindClaim(w.db, c.wallet, c.campaign);
    if found.Some? { SeenOk(w.db, c, found.value); }
    match e
    case Find(_) => OthersKept(w, w.db, i, if found.Some? then Seen(w.db, found.value) else Creating);
    case Create(_) =>
      if c.pc == Creating && found.None? { CreateStepOk(w, i); } else { OthersKept(w, w.db, i, Conflicted); }
    case Reread(_) => OthersKept(w, w.db, i, if found.Some? then Seen(w.db, found.value) else Aborted);
    case Compute(_, risk, thresholds) =>
      if c.pc.Have? {
        DecideCoherent(risk, thresholds);
        OthersKept(w, w.db, i, Computed(c.pc.claim, Decide(risk, thresholds)));
      }
    case Abort(_) => OthersKept(w, w.db, i, Aborted);
    case Write(_) => if c.pc.Computed? { WriteStepOk(w, i, clocks); }
    case Replay(_) =>
      if c.pc.Have? && Sticky(c.pc.seen) {
        StoredBacked(w.db, c.pc.claim, c.pc.seen, c.pc.cluster);
        OthersKept(w, w.db, i, Done(Stored(w.db, c.pc.claim, c.pc.seen, c.pc.cluster)));
      }
    case _ =>
  }

  /** Every step keeps the invariant and everything that was handed out. */
  lemma StepOk(w: World, e: Event, clocks: Clocks)
    requires WorldOk(w)
    ensures Runnable(w) && WorldOk(Step(w, e, clocks)) && Kept(w.db, Step(w, e, clocks).db)
  {
    WorldRunnable(w);
    hide Sound, Kept, CallerOk, CallerStep, DbStep;
    KeptSame(w.db, w.db);
    if ByCaller(e) {
      if e.caller < |w.callers| { CallerStepOk(w, e, e.caller, clocks); }
    } else if e.Begin? {
      NewCallerOk(w, Caller(ToLower(e.wallet), e.campaign, Start));
    } else {
      var db' := DbStep(w.db, e, clocks);
      DbStepOk(w.db, e, clocks);
      forall j | 0 <= j < |w.callers| ensures CallerOk(db', w.callers[j]) { CallerKept(w.db, db', w.callers[j]); }
    }
  }

  lemma NewCallerOk(w: World, c: Caller)
    requires WorldOk(w) && c.pc == Start
    ensures WorldOk(w.(callers := w.callers + [c]))
  {
  }

  const EMPTY: World := World(Db([], [], map[], 0), [])

  ghost function Run(events: seq<Event>, clocks: Clocks): (w: World)
    ensures WorldOk(w)
  {
    if events == [] then EMPTY
    else
      var before := Run(events[..|events| - 1], clocks);
      StepOk(before, events[|events| - 1], clocks);
      Step(before, events[|events| - 1], clocks)
  }

  // ---- main results ----

  /** Along any run, whatever was handed out before stays as it was afterwards. */
  lemma {:induction false} RunKeeps(events: seq<Event>, k: nat, clocks: Clocks)
    requires k <= |events|
    ensures Kept(Run(events[..k], clocks).db, Run(events, clocks).db)
  {
    hide Kept, WorldOk, Step;
    if k == |events| {
      assert events[..k] == events;
      KeptSelf(Run(events, clocks));
    } else {
      var init, e := events[..|events| - 1], events[|events| - 1];
      RunKeeps(init, k, clocks);
      assert init[..k] == events[..k];
      StepOk(Run(init, clocks), e, clocks);
      KeptTrans(Run(events[..k], clocks).db, Run(init, clocks).db, Run(events, clocks).db);
    }
  }

  /** In every run a passed challenge names its proof, and two passed challenges of one action name different ones. */
  lemma PassesNameDifferentProofs(events: seq<Event>, clocks: Clocks, j: nat, k: nat)
    requires
      var cs := Run(events, clocks).db.challenges;
      && j < |cs| && k < |cs| && cs[j].action == cs[k].action
      && cs[j].challengeStatus == PASSED == cs[k].challengeStatus
    ensures
      var cs := Run(events, clocks).db.challenges;
      cs[j].nullifier.Some? && cs[k].nullifier.Some? && (cs[j].nullifier == cs[k].nullifier ==> j == k)
  {
    hide Run;
    var w := Run(events, clocks);
    assert WorldOk(w);
    SoundChallenges(w.db);
    if j != k { PassesDiffer(w.db, j, k); }
  }

  /**
   * A proof that passed on an action at any point of a run is refused ever after on every other prompt of that
   * action, and finalizing the claim it was refused on blocks it.
   */
  lemma SpentForGood(events: seq<Event>, n: nat, clocks: Clocks, j: nat, claim: nat, bound: bool)
    requires n <= |events|
    requires j < |Run(events[..n], clocks).db.challenges|
    requires Run(events[..n], clocks).db.challenges[j].challengeStatus == PASSED
    requires
      var db := Run(events, clocks).db;
      && claim < |db.claims| && OpenChallenge(db, claim).Some?
      && db.challenges[OpenChallenge(db, claim).value].action == Run(events[..n], clocks).db.challenges[j].action
    ensures claim in Run(events, clocks).db.receipts
    ensures
      var spent := Run(events[..n], clocks).db.challenges[j].nullifier;
      var (after, status) := Verification(Run(events, clocks).db, claim, Verified(bound, spent));
      && spent.Some? && status == PROOF_FAILED
      && claim < |after.claims| && after.claims[claim].decision == CHALLENGE && claim in after.receipts
      && Finalization(after, claim).1 == FINALIZED && Finalization(after, claim).0.claims[claim].decision == BLOCK
  {
    hide Run, Used, Sound;
    var before, w := Run(events[..n], clocks), Run(events, clocks);
    assert WorldOk(before) && WorldOk(w);
    RunKeeps(events, n, clocks);
    assert ChallengeKept(before.db.challenges[j], w.db.challenges[j]);
    SoundChallenges(before.db);
    SoundChallenges(w.db);
    var spent := before.db.challenges[j].nullifier;
    SpentProofRefused(w.db, j, claim, bound);
    OpenClaimChallenged(w.db, claim);
    VerifyThenFinalize(w.db, claim, Verified(bound, spent));
  }

  lemma OpenClaimChallenged(db: Db, claim: nat)
    requires Sound(db) && claim < |db.claims| && OpenChallenge(db, claim).Some?
    ensures db.claims[claim].decision == CHALLENGE && claim in db.receipts
  {
    assert ClaimOk(db, claim);
    OpenMeansChallenged(db, OpenChallenge(db, claim).value);
  }

  /** Receipts are numbered as they are first written. */
  ghost predicate ReceiptsNumbered(db: Db) {
    && (forall i | i in db.receipts :: db.receipts[i].id < |db.receipts|)
    && (forall i, j | i in db.receipts && j in db.receipts && db.receipts[i].id == db.receipts[j].id :: i == j)
  }

  lemma RecordedNumbered(db: Db, claim: nat, d: PolicyDecision, challenge: Option<nat>)
    requires claim < |db.claims| && ReceiptsNumbered(db)
    ensures ReceiptsNumbered(Recorded(db, claim, d, challenge))
    ensures claim in db.receipts ==> Recorded(db, claim, d, challenge).receipts[claim].id == db.receipts[claim].id
  {
    var db' := Recorded(db, claim, d, challenge);
    assert db'.receipts.Keys == db.receipts.Keys + {claim};
    assert |db'.receipts.Keys| == if claim in db.receipts then |db.receipts.Keys| else |db.receipts.Keys| + 1;
    assert |db'.receipts| == |db'.receipts.Keys| && |db.receipts| == |db.receipts.Keys|;
  }

  lemma FinalizedNumbered(db: Db, claim: nat)
    requires claim < |db.claims| && ReceiptsNumbered(db) && claim in db.receipts
    ensures ReceiptsNumbered(Finalization(db, claim).0)
  {
    hide LatestChallenge;
    var db' := Finalization(db, claim).0;
    assert db'.receipts.Keys == db.receipts.Keys;
    assert |db'.receipts| == |db'.receipts.Keys| && |db.receipts| == |db.receipts.Keys|;
  }

  lemma StepNumbered(w: World, e: Event, clocks: Clocks)
    requires WorldOk(w) && Runnable(w) && ReceiptsNumbered(w.db)
    ensures ReceiptsNumbered(Step(w, e, clocks).db)
  {
    hide WorldOk, Sound, Recorded, IssueOrReuse, Answer, Stored, Decide, Finalization, Used, LatestChallenge;
    if e.Write? && e.caller < |w.callers| && w.callers[e.caller].pc.Computed? {
      var pc := w.callers[e.caller].pc;
      assert ClaimKnown(w.db, pc);
      ScreenedNumbered(w.db, pc.claim, pc.computed, clocks);
    } else if e.Finalize? && e.claim < |w.db.claims| {
      ChallengedHasReceipt(w.db, e.claim);
      if e.claim in w.db.receipts { FinalizedNumbered(w.db, e.claim); } else { UnchallengedUnchanged(w.db, e.claim); }
    } else if e.ReissueChallenge? && e.claim < |w.db.claims| {
      IssueKeepsRows(w.db, e.claim, w.db.claims[e.claim].campaign, clocks);
    }
  }

  lemma UnchallengedUnchanged(db: Db, claim: nat)
    requires claim < |db.claims| && db.claims[claim].decision != CHALLENGE
    ensures Finalization(db, claim).0 == db
  {
  }

  lemma ScreenedNumbered(db: Db, claim: nat, d: PolicyDecision, clocks: Clocks)
    requires claim < |db.claims| && ReceiptsNumbered(db)
    ensures ReceiptsNumbered(Screened(db, claim, d, clocks))
  {
    hide IssueOrReuse, Recorded;
    IssueKeepsRows(db, claim, db.claims[claim].campaign, clocks);
    var (issued, k) := IssueOrReuse(db, claim, db.claims[claim].campaign, clocks);
    RecordedNumbered(issued, claim, d, Some(k));
    RecordedNumbered(db, claim, d, None);
  }

  /** In every run no two claims share a receipt, by the receipt's own id. */
  lemma {:induction false} ReceiptsApart(events: seq<Event>, clocks: Clocks)
    ensures ReceiptsNumbered(Run(events, clocks).db)
  {
    hide WorldOk, Step;
    if events != [] {
      var init := events[..|events| - 1];
      ReceiptsApart(init, clocks);
      StepOk(Run(init, clocks), events[|events| - 1], clocks);
      StepNumbered(Run(init, clocks), events[|events| - 1], clocks);
    }
  }

  // ---- turns, and a call that nobody disturbs ----

  /** The stage a caller is at when an event is its turn. */
  predicate InTurn(pc: Pc, e: Event) {
    match e
    case Find(_) => pc == Start
    case Create(_) => pc == Creating
    case Reread(_) => pc == Conflicted
    case Replay(_) => pc.Have? && pc.seen != PENDING_REVIEW
    case Compute(_, _, _) => pc.Have? && pc.seen == PENDING_REVIEW
    case Write(_) => pc.Computed?
    case Abort(_) => !pc.Done? && pc != Aborted
    case _ => false
  }

  /** In turn the caller moves, and nobody else does; out of turn nothing happens to anyone or to the tables. */
  lemma TurnsExact(w: World, e: Event, clocks: Clocks)
    requires Runnable(w) && ByCaller(e)
    ensures
      var t := Step(w, e, clocks);
      && |t.callers| == |w.callers|
      && (forall j | 0 <= j < |w.callers| && j != e.caller :: t.callers[j] == w.callers[j])
      && (e.caller < |w.callers| ==>
            && t.callers[e.caller] == w.callers[e.caller].(pc := t.callers[e.caller].pc)
            && (t.callers[e.caller].pc != w.callers[e.caller].pc <==> InTurn(w.callers[e.caller].pc, e)))
      && (e.caller >= |w.callers| || !InTurn(w.callers[e.caller].pc, e) ==> t == w)
  {
    hide Sound, Screened, Answer, Stored, Decide, Created;
    if e.caller < |w.callers| {
      assert ClaimKnown(w.db, w.callers[e.caller].pc);
      AtSame(w, e.caller);
    }
  }

  lemma AtSame(w: World, i: nat)
    requires i < |w.callers|
    ensures At(w, i, w.callers[i].pc) == w
  {
  }

  lemma RunStep(events: seq<Event>, e: Event, clocks: Clocks)
    ensures Runnable(Run(events, clocks)) && Run(events + [e], clocks) == Step(Run(events, clocks), e, clocks)
  {
    WorldRunnable(Run(events, clocks));
    assert (events + [e])[..|events|] == events;
  }

  /** A finished call keeps its answer for the rest of the run. */
  lemma {:induction false} FinishedForGood(events: seq<Event>, k: nat, i: nat, clocks: Clocks)
    requires k <= |events| && i < |Run(events[..k], clocks).callers| && Run(events[..k], clocks).callers[i].pc.Done?
    ensures i < |Run(events, clocks).callers|
    ensures Run(events, clocks).callers[i] == Run(events[..k], clocks).callers[i]
  {
    hide Runnable, WorldOk, CallerStep, DbStep;
    if k == |events| {
      assert events[..k] == events;
    } else {
      var init, e := events[..|events| - 1], events[|events| - 1];
      assert init[..k] == events[..k] && init + [e] == events;
      FinishedForGood(init, k, i, clocks);
      RunStep(init, e, clocks);
      if ByCaller(e) { TurnsExact(Run(init, clocks), e, clocks); }
    }
  }

  lemma {:induction false} ConflictedFound(events: seq<Event>, i: nat, clocks: Clocks)
    requires i < |Run(events, clocks).callers| && Run(events, clocks).callers[i].pc == Conflicted
    ensures
      var w := Run(events, clocks);
      FindClaim(w.db, w.callers[i].wallet, w.callers[i].campaign).Some?
  {
    hide WorldOk, Sound, Screened, Answer, Stored, Decide, DbStep, Kept;
    if events != [] {
      var init, e := events[..|events| - 1], events[|events| - 1];
      var before := Run(init, clocks);
      StepOk(before, e, clocks);
      if i < |before.callers| && before.callers[i].pc == Conflicted {
        ConflictedFound(init, i, clocks);
        StillThere(before.db, Run(events, clocks).db, before.callers[i]);
      }
    }
  }

  lemma StillThere(db: Db, db': Db, c: Caller)
    requires Kept(db, db') && FindClaim(db, c.wallet, c.campaign).Some?
    ensures FindClaim(db', c.wallet, c.campaign).Some?
  {
    assert ClaimKept(db, db', FindClaim(db, c.wallet, c.campaign).value);
  }

  /** The caller whose creation conflicted finds the winner's claim, at whatever point of whatever run. */
  lemma LoserFinds(events: seq<Event>, i: nat, clocks: Clocks)
    requires i < |Run(events, clocks).callers| && Run(events, clocks).callers[i].pc == Conflicted
    ensures
      var w, t := Run(events, clocks), Run(events + [Reread(i)], clocks);
      && i < |t.callers| && t.callers[i].pc.Have? && t.callers[i].pc.claim < |w.db.claims|
      && w.db.claims[t.callers[i].pc.claim].wallet == w.callers[i].wallet
      && w.db.claims[t.callers[i].pc.claim].campaign == w.callers[i].campaign
  {
    hide WorldOk, Sound;
    ConflictedFound(events, i, clocks);
    RunStep(events, Reread(i), clocks);
  }

  /** Whoever is about to create finds itself with the claim of its wallet and campaign, its own or the winner's. */
  lemma RaceResolved(events: seq<Event>, i: nat, clocks: Clocks)
    requires i < |Run(events, clocks).callers| && Run(events, clocks).callers[i].pc == Creating
    ensures
      var c, t := Run(events, clocks).callers[i], Run(events + [Create(i)] + [Reread(i)], clocks);
      && i < |t.callers| && t.callers[i].pc.Have?
      && FindClaim(t.db, c.wallet, c.campaign) == Some(t.callers[i].pc.claim)
      && (FindClaim(Run(events, clocks).db, c.wallet, c.campaign).Some? ==> t.db == Run(events, clocks).db)
  {
    hide Runnable, WorldOk, Run;
    var w, created := Run(events, clocks), events + [Create(i)];
    RunStep(events, Create(i), clocks);
    RunStep(created, Reread(i), clocks);
    FoundNew(w.db, w.callers[i].wallet, w.callers[i].campaign);
  }

  lemma FoundNew(db: Db, wallet: string, campaign: string)
    ensures FindClaim(db, wallet, campaign).None? ==>
      FindClaim(Created(db, wallet, campaign), wallet, campaign) == Some(|db.claims|)
  {
    var again := FindClaim(Created(db, wallet, campaign), wallet, campaign);
    var db' := Created(db, wallet, campaign);
    assert db'.claims[|db.claims|].wallet == wallet && db'.claims[|db.claims|].campaign == campaign;
  }

  /** An undisturbed call for a wallet without a claim: created, assessed, recorded and answered. */
  lemma UndisturbedScreening(events: seq<Event>, wallet: string, campaign: string, risk: ClusterRisk,
                             thresholds: seq<Threshold>, clocks: Clocks)
    requires FindClaim(Run(events, clocks).db, ToLower(wallet), campaign).None?
    ensures
      var w, i := Run(events, clocks), |Run(events, clocks).callers|;
      var n := |w.db.claims|;
      var t := Run(events + [Begin(wallet, campaign)] + [Find(i)] + [Create(i)] + [Compute(i, risk, thresholds)]
                   + [Write(i)], clocks);
      && i < |t.callers| && t.callers[i].pc.Done? && |t.db.claims| == n + 1 && n in t.db.receipts
      && t.callers[i].pc.result.claimId == n
      && t.callers[i].pc.result.decision == t.db.claims[n].decision == Decide(risk, thresholds).decision
      && t.callers[i].pc.result.score == t.db.receipts[n].score == risk.riskScore
      && t.callers[i].pc.result.cluster == t.db.receipts[n].cluster == risk.clusterId
      && t.callers[i].pc.result.receiptId == Some(t.db.receipts[n].id)
      && (t.callers[i].pc.result.challengeId.Some? <==> t.db.claims[n].decision == CHALLENGE)
  {
    hide Runnable, WorldOk, Run, Decide, IssueOrReuse;
    var i, w := |Run(events, clocks).callers|, Run(events, clocks);
    var n := |w.db.claims|;
    var e1 := events + [Begin(wallet, campaign)];
    RunStep(events, Begin(wallet, campaign), clocks);
    var e2 := e1 + [Find(i)];
    RunStep(e1, Find(i), clocks);
    var e3 := e2 + [Create(i)];
    RunStep(e2, Create(i), clocks);
    var e4 := e3 + [Compute(i, risk, thresholds)];
    RunStep(e3, Compute(i, risk, thresholds), clocks);
    RunStep(e4, Write(i), clocks);
    DecideCarries(risk, thresholds);
    ScreenedCarriesAssessment(Run(e4, clocks).db, n, risk, thresholds, clocks);
  }

  /** For a wallet whose claim is decided: the stored answer, and the tables as they were. */
  lemma UndisturbedReplay(events: seq<Event>, wallet: string, campaign: string, clocks: Clocks)
    requires FindClaim(Run(events, clocks).db, ToLower(wallet), campaign).Some?
    requires
      var db := Run(events, clocks).db;
      Sticky(db.claims[FindClaim(db, ToLower(wallet), campaign).value].decision)
    ensures
      var w, i := Run(events, clocks), |Run(events, clocks).callers|;
      var claim := FindClaim(w.db, ToLower(wallet), campaign).value;
      var t := Run(events + [Begin(wallet, campaign)] + [Find(i)] + [Replay(i)], clocks);
      && i < |t.callers| && t.callers[i].pc.Done? && t.db == w.db
      && t.callers[i].pc.result.claimId == claim && t.callers[i].pc.result.decision == w.db.claims[claim].decision
  {
    hide Runnable, WorldOk, Run;
    var i := |Run(events, clocks).callers|;
    var e1 := events + [Begin(wallet, campaign)];
    RunStep(events, Begin(wallet, campaign), clocks);
    var e2 := e1 + [Find(i)];
    RunStep(e1, Find(i), clocks);
    RunStep(e2, Replay(i), clocks);
  }

  lemma KeptSelf(w: World)
    requires WorldOk(w)
    ensures Kept(w.db, w.db)
  {
    KeptSame(w.db, w.db);
  }

  /** Two callers who were told a decision on one wallet and campaign were told the same findings. */
  lemma SameFindings(events: seq<Event>, clocks: Clocks, i: nat, j: nat)
    requires
      var w := Run(events, clocks);
      && i < |w.callers| && j < |w.callers| && w.callers[i].pc.Done? && w.callers[j].pc.Done?
      && w.callers[i].wallet == w.callers[j].wallet && w.callers[i].campaign == w.callers[j].campaign
      && Sticky(w.callers[i].pc.result.decision) && Sticky(w.callers[j].pc.result.decision)
    ensures
      var r, t := Run(events, clocks).callers[i].pc.result, Run(events, clocks).callers[j].pc.result;
      && r.claimId == t.claimId && r.receiptId == t.receiptId && r.receiptId.Some?
      && r.score == t.score && r.cluster == t.cluster && r.assurance == t.assurance
      && (Follows(r.decision, t.decision) || Follows(t.decision, r.decision))
  {
    hide Run, Sound;
    var w := Run(events, clocks);
    assert WorldOk(w);
    assert CallerOk(w.db, w.callers[i]) && CallerOk(w.db, w.callers[j]);
    SoundUnique(w.db);
    OneClaim(w.db, w.callers[i].pc.result.claimId, w.callers[j].pc.result.claimId);
  }

  /** A caller keeps the wallet and campaign it began with. */
  lemma {:induction false} CallerRemains(events: seq<Event>, k: nat, clocks: Clocks)
    requires k < |events| && events[k].Begin?
    ensures
      var n, w := |Run(events[..k], clocks).callers|, Run(events, clocks);
      && n < |w.callers| && w.callers[n].wallet == ToLower(events[k].wallet)
      && w.callers[n].campaign == events[k].campaign
  {
    hide WorldOk, CallerOk, Runnable, Sound;
    var init, e := events[..|events| - 1], events[|events| - 1];
    var before := Run(init, clocks);
    StepOk(before, e, clocks);
    if k < |init| {
      CallerRemains(init, k, clocks);
      assert init[..k] == events[..k];
      hide Run;
    }
  }

  /** Two calls for one campaign, for wallets that differ at most in letter case, are about one claim. */
  lemma OneClaimPerSpelling(events: seq<Event>, k: nat, l: nat, clocks: Clocks)
    requires k < |events| && l < |events| && events[k].Begin? && events[l].Begin?
    requires SameSpelling(events[k].wallet, events[l].wallet) && events[k].campaign == events[l].campaign
    ensures
      var i, j := |Run(events[..k], clocks).callers|, |Run(events[..l], clocks).callers|;
      var w := Run(events, clocks);
      && i < |w.callers| && j < |w.callers|
      && (w.callers[i].pc.Done? && w.callers[j].pc.Done? ==>
            w.callers[i].pc.result.claimId == w.callers[j].pc.result.claimId)
  {
    hide Run, Sound, Backed;
    CallerRemains(events, k, clocks);
    CallerRemains(events, l, clocks);
    ToLowerExact(events[k].wallet, events[l].wallet);
    var w := Run(events, clocks);
    assert WorldOk(w);
    var c, d := w.callers[|Run(events[..k], clocks).callers|], w.callers[|Run(events[..l], clocks).callers|];
    assert CallerOk(w.db, c) && CallerOk(w.db, d);
    SoundUnique(w.db);
    if c.pc.Done? && d.pc.Done? { OneClaim(w.db, c.pc.result.claimId, d.pc.result.claimId); }
  }

  lemma SoundUnique(db: Db)
    requires Sound(db)
    ensures UniqueClaims(db)
  {
  }

  /** A challenge becomes ALLOW in one way only: by finalizing a claim whose latest challenge passed. */
  lemma AllowOnlyAfterPass(w: World, e: Event, clocks: Clocks, claim: nat)
    requires WorldOk(w) && Runnable(w) && claim < |w.db.claims| && w.db.claims[claim].decision == CHALLENGE
    requires claim < |Step(w, e, clocks).db.claims| && Step(w, e, clocks).db.claims[claim].decision == ALLOW
    ensures e == Finalize(claim) && LatestIs(w.db, claim, PASSED)
  {
    hide WorldOk, Sound, IssueOrReuse, Used, LatestChallenge, Answer, Stored;
    if e.Write? && e.caller < |w.callers| && w.callers[e.caller].pc.Computed? {
      var pc := w.callers[e.caller].pc;
      assert ClaimKnown(w.db, pc);
      ScreenedElsewhere(w.db, pc.claim, pc.computed, clocks, claim);
    }
    if e.ReissueChallenge? && e.claim < |w.db.claims| {
      OwnersKept(w.db, e.claim, w.db.claims[e.claim].campaign, clocks);
    }
  }

  lemma ScreenedElsewhere(db: Db, claim: nat, d: PolicyDecision, clocks: Clocks, other: nat)
    requires claim < |db.claims| && other < |db.claims| && Sticky(db.claims[other].decision)
    ensures |Screened(db, claim, d, clocks).claims| == |db.claims|
    ensures Screened(db, claim, d, clocks).claims[other] == db.claims[other]
  {
    hide IssueOrReuse;
    OwnersKept(db, claim, db.claims[claim].campaign, clocks);
  }
}
