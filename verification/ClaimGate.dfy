/** Claims, challenges and receipts, and the steps that change them (`orchestrator.ts`, `policy-engine.ts`). */
module ClaimGate {
  import opened Common
  import opened CapabilityTypes
  import opened Scoring
  import opened PolicyEngine

  datatype Claim = Claim(wallet: string, campaign: string, decision: Decision, cluster: Option<string>)

  datatype ChallengeStatus = ISSUED | PASSED | FAILED | TIMED_OUT

  datatype Challenge = Challenge(
    claimId: nat, challengeStatus: ChallengeStatus, createdAt: int, resolvedAt: int,
    nullifier: Option<nat>, action: string)

  datatype Receipt = Receipt(
    id: nat, decision: Decision, cluster: Option<string>, score: real, assurance: Option<string>,
    challengeId: Option<nat>)

  /** The three tables; a claim or a challenge is named by its position. */
  datatype Db = Db(claims: seq<Claim>, challenges: seq<Challenge>, receipts: map<nat, Receipt>, now: int)

  /** How long a passed proof counts, and how long a prompt stays open. */
  datatype Clocks = Clocks(validity: nat, ttl: nat)

  predicate Sticky(d: Decision) { d != PENDING_REVIEW }

  // ---- queries ----

  function FindFrom(claims: seq<Claim>, wallet: string, campaign: string, from: nat): (r: Option<nat>)
    requires from <= |claims|
    ensures r.Some? ==>
      from <= r.value < |claims| && claims[r.value].wallet == wallet && claims[r.value].campaign == campaign
    ensures r.None? ==> forall i | from <= i < |claims| :: claims[i].wallet != wallet || claims[i].campaign != campaign
    decreases |claims| - from
  {
    if from == |claims| then None
    else if claims[from].wallet == wallet && claims[from].campaign == campaign then Some(from)
    else FindFrom(claims, wallet, campaign, from + 1)
  }

  function FindClaim(db: Db, wallet: string, campaign: string): Option<nat> {
    FindFrom(db.claims, wallet, campaign, 0)
  }

  /** The newest of the first `n` challenges of a claim with a wanted status (any status when none is wanted). */
  function Newest(challenges: seq<Challenge>, n: nat, claim: nat, wanted: Option<ChallengeStatus>): (r: Option<nat>)
    requires n <= |challenges|
    ensures r.Some? ==> r.value < n && Suits(challenges[r.value], claim, wanted)
    ensures r.Some? ==> forall k | r.value < k < n :: !Suits(challenges[k], claim, wanted)
    ensures r.None? ==> forall k | 0 <= k < n :: !Suits(challenges[k], claim, wanted)
  {
    if n == 0 then None
    else if Suits(challenges[n - 1], claim, wanted) then Some(n - 1)
    else Newest(challenges, n - 1, claim, wanted)
  }

  predicate Suits(c: Challenge, claim: nat, wanted: Option<ChallengeStatus>) {
    c.claimId == claim && (wanted.None? || c.challengeStatus == wanted.value)
  }

  function LatestChallenge(db: Db, claim: nat): Option<nat> { Newest(db.challenges, |db.challenges|, claim, None) }

  function OpenChallenge(db: Db, claim: nat): Option<nat> {
    Newest(db.challenges, |db.challenges|, claim, Some(ISSUED))
  }

  /** The passed challenge resolved last, if it was resolved no earlier than `since`. */
  function RecentPass(challenges: seq<Challenge>, n: nat, claim: nat, since: int): (r: Option<nat>)
    requires n <= |challenges|
    ensures r.Some? ==> r.value < n && Suits(challenges[r.value], claim, Some(PASSED))
    ensures r.Some? ==> challenges[r.value].resolvedAt >= since
    ensures r.Some? ==> forall k | 0 <= k < n && Suits(challenges[k], claim, Some(PASSED)) ::
      challenges[k].resolvedAt <= challenges[r.value].resolvedAt
    ensures r.None? ==> forall k | 0 <= k < n && Suits(challenges[k], claim, Some(PASSED)) ::
      challenges[k].resolvedAt < since
  {
    if n == 0 then None
    else
      var before, c := RecentPass(challenges, n - 1, claim, since), challenges[n - 1];
      if Suits(c, claim, Some(PASSED)) && c.resolvedAt >= since
         && (before.None? || c.resolvedAt >= challenges[before.value].resolvedAt)
      then Some(n - 1) else before
  }

  predicate Used(db: Db, nullifier: nat, action: string, except: nat) {
    exists k :: 0 <= k < |db.challenges| && k != except
      && db.challenges[k].nullifier == Some(nullifier) && db.challenges[k].action == action
  }

  // ---- what is written ----

  function Created(db: Db, wallet: string, campaign: string): Db {
    db.(claims := db.claims + [Claim(wallet, campaign, PENDING_REVIEW, None)])
  }

  function Resolved(db: Db, k: nat, status: ChallengeStatus, nullifier: Option<nat>): Db
    requires k < |db.challenges|
  {
    db.(challenges := db.challenges[k :=
      db.challenges[k].(challengeStatus := status, resolvedAt := db.now, nullifier := nullifier)])
  }

  function Issued(db: Db, claim: nat, action: string): Db {
    db.(challenges := db.challenges + [Challenge(claim, ISSUED, db.now, db.now, None, action)])
  }

  predicate TimedOut(db: Db, k: nat, clocks: Clocks)
    requires k < |db.challenges|
  {
    db.now - db.challenges[k].createdAt > clocks.ttl
  }

  /** The challenge to answer: a still valid pass, a prompt still open, or a new prompt. */
  function IssueOrReuse(db: Db, claim: nat, action: string, clocks: Clocks): (Db, nat) {
    var passed := RecentPass(db.challenges, |db.challenges|, claim, db.now - clocks.validity);
    var open := OpenChallenge(db, claim);
    if passed.Some? then (db, passed.value)
    else if open.Some? && !TimedOut(db, open.value, clocks) then (db, open.value)
    else
      var closed := if open.Some? then Resolved(db, open.value, TIMED_OUT, db.challenges[open.value].nullifier) else db;
      (Issued(closed, claim, action), |db.challenges|)
  }

  function ReceiptId(db: Db, claim: nat): nat {
    if claim in db.receipts then db.receipts[claim].id else |db.receipts|
  }

  function Recorded(db: Db, claim: nat, d: PolicyDecision, challenge: Option<nat>): Db
    requires claim < |db.claims|
  {
    var receipt := Receipt(ReceiptId(db, claim), d.decision, d.clusterId, d.riskScore, d.requiredAssurance, challenge);
    db.(receipts := db.receipts[claim := receipt],
        claims := db.claims[claim := db.claims[claim].(decision := d.decision, cluster := d.clusterId)])
  }

  /** The locked write: nothing when somebody already decided, else challenge, receipt and claim together. */
  function Screened(db: Db, claim: nat, d: PolicyDecision, clocks: Clocks): Db
    requires claim < |db.claims|
  {
    if Sticky(db.claims[claim].decision) then db
    else if d.decision == CHALLENGE then
      var (issued, k) := IssueOrReuse(db, claim, db.claims[claim].campaign, clocks);
      Recorded(issued, claim, d, Some(k))
    else Recorded(db, claim, d, None)
  }

  /** The receipt of a screening is the assessment's: its own score and its own cluster, on the claim as well. */
  lemma ScreenedCarriesAssessment(db: Db, claim: nat, risk: ClusterRisk, thresholds: seq<Threshold>, clocks: Clocks)
    requires claim < |db.claims| && !Sticky(db.claims[claim].decision)
    ensures
      var db' := Screened(db, claim, Decide(risk, thresholds), clocks);
      && |db'.claims| == |db.claims| && claim in db'.receipts
      && db'.claims[claim].cluster == db'.receipts[claim].cluster == risk.clusterId
      && db'.receipts[claim].score == risk.riskScore && db'.receipts[claim].id == ReceiptId(db, claim)
      && db'.claims[claim].decision == db'.receipts[claim].decision
      && (db'.receipts[claim].decision == CHALLENGE <==> db'.receipts[claim].assurance == Some("SELFIE_CHECK"))
  {
    hide IssueOrReuse, PolicyBand;
    if Decide(risk, thresholds).decision == CHALLENGE {
      IssueKeepsRows(db, claim, db.claims[claim].campaign, clocks);
    }
  }

  lemma IssueKeepsRows(db: Db, claim: nat, action: string, clocks: Clocks)
    ensures IssueOrReuse(db, claim, action, clocks).0.claims == db.claims
    ensures IssueOrReuse(db, claim, action, clocks).0.receipts == db.receipts
  {
    hide RecentPass, TimedOut;
  }

  datatype ProofOutcome = Unavailable | Rejected | Malformed | Verified(bound: bool, proof: Option<nat>)

  datatype VerifyStatus = PROOF_PASSED | PROOF_FAILED | RETRYABLE | NOTHING_OPEN

  function Verification(db: Db, claim: nat, outcome: ProofOutcome): (Db, VerifyStatus) {
    var open := OpenChallenge(db, claim);
    if open.None? then (db, NOTHING_OPEN)
    else
      var k := open.value;
      var failed := Resolved(db, k, FAILED, db.challenges[k].nullifier);
      match outcome
      case Unavailable => (db, RETRYABLE)
      case Rejected => (failed, PROOF_FAILED)
      case Malformed => (failed, PROOF_FAILED)
      case Verified(bound, proof) =>
        if !bound || proof.None? || Used(db, proof.value, db.challenges[k].action, k) then (failed, PROOF_FAILED)
        else (Resolved(db, k, PASSED, proof), PROOF_PASSED)
  }

  datatype FinalizeStatus = UNCHANGED | FINALIZED | OUTSTANDING | NO_CHALLENGE

  function Finalization(db: Db, claim: nat): (Db, FinalizeStatus)
    requires claim < |db.claims| && (db.claims[claim].decision == CHALLENGE ==> claim in db.receipts)
  {
    var latest := LatestChallenge(db, claim);
    if db.claims[claim].decision != CHALLENGE then (db, UNCHANGED)
    else if latest.None? then (db, NO_CHALLENGE)
    else if db.challenges[latest.value].challengeStatus == ISSUED then (db, OUTSTANDING)
    else
      var decision := if db.challenges[latest.value].challengeStatus == PASSED then ALLOW else BLOCK;
      (db.(claims := db.claims[claim := db.claims[claim].(decision := decision)],
           receipts := db.receipts[claim := db.receipts[claim].(decision := decision, challengeId := latest)]),
       FINALIZED)
  }

  function Reissue(db: Db, claim: nat, clocks: Clocks): Db
    requires claim < |db.claims|
  {
    if db.claims[claim].decision != CHALLENGE then db
    else IssueOrReuse(db, claim, db.claims[claim].campaign, clocks).0
  }

  // ---- the invariant ----

  ghost predicate UniqueClaims(db: Db) {
    forall i, j | 0 <= i < j < |db.claims| ::
      db.claims[i].wallet != db.claims[j].wallet || db.claims[i].campaign != db.claims[j].campaign
  }

  /** Challenges belong to claims, only a claim's latest can be open, a pass names its proof, and none is used twice. */
  ghost predicate ChallengesOk(db: Db) {
    && (forall k | 0 <= k < |db.challenges| :: db.challenges[k].claimId < |db.claims|)
    && (forall j, k | 0 <= j < k < |db.challenges| && db.challenges[j].claimId == db.challenges[k].claimId ::
          db.challenges[j].challengeStatus != ISSUED)
    && (forall j, k | 0 <= j < k < |db.challenges| && db.challenges[j].nullifier.Some? ::
          db.challenges[j].nullifier != db.challenges[k].nullifier
          || db.challenges[j].action != db.challenges[k].action)
    && (forall k | 0 <= k < |db.challenges| && db.challenges[k].challengeStatus == PASSED ::
          db.challenges[k].nullifier.Some?)
  }

  predicate Challenged(db: Db, claim: nat) { LatestChallenge(db, claim).Some? }

  predicate LatestIs(db: Db, claim: nat, status: ChallengeStatus) {
    var k := LatestChallenge(db, claim);
    k.Some? && db.challenges[k.value].challengeStatus == status
  }

  /** Whatever the claim's decision is, its receipt carries it, and an assured ALLOW rests on a passed challenge. */
  predicate ClaimOk(db: Db, claim: nat)
    requires claim < |db.claims|
  {
    var d := db.claims[claim].decision;
    && (claim in db.receipts ==>
          db.receipts[claim].decision == d && db.receipts[claim].cluster == db.claims[claim].cluster)
    && (Sticky(d) ==> claim in db.receipts && (db.receipts[claim].assurance.Some? <==> Challenged(db, claim)))
    && (d == PENDING_REVIEW ==> !Challenged(db, claim))
    && (d == CHALLENGE ==> Challenged(db, claim))
    && (d == ALLOW && Challenged(db, claim) ==> LatestIs(db, claim, PASSED))
    && (d == BLOCK ==> !LatestIs(db, claim, PASSED) && !LatestIs(db, claim, ISSUED))
  }

  ghost predicate Sound(db: Db) {
    && UniqueClaims(db) && ChallengesOk(db)
    && (forall i | 0 <= i < |db.claims| :: ClaimOk(db, i))
    && (forall i | i in db.receipts :: i < |db.claims|)
  }

  // ---- reading the invariant ----

  /** One claim per wallet and campaign. */
  lemma OneClaim(db: Db, i: nat, j: nat)
    requires UniqueClaims(db) && i < |db.claims| && j < |db.claims|
    requires db.claims[i].wallet == db.claims[j].wallet && db.claims[i].campaign == db.claims[j].campaign
    ensures i == j
  {
  }

  /** At most one open challenge per claim, and it is the claim's latest. */
  lemma OneOpenChallenge(db: Db, j: nat, k: nat)
    requires ChallengesOk(db) && j < |db.challenges| && k < |db.challenges|
    requires db.challenges[j].claimId == db.challenges[k].claimId && db.challenges[j].challengeStatus == ISSUED
    ensures k <= j && (db.challenges[k].challengeStatus == ISSUED ==> k == j)
    ensures LatestChallenge(db, db.challenges[j].claimId) == Some(j)
  {
    var latest := LatestChallenge(db, db.challenges[j].claimId);
    assert Suits(db.challenges[j], db.challenges[j].claimId, None);
    assert Suits(db.challenges[k], db.challenges[j].claimId, None);
  }

  // ---- the invariant is kept ----

  /** Nothing about the claim changed: same row, same receipt, same challenges. */
  ghost predicate SameClaim(db: Db, db': Db, claim: nat) {
    && claim < |db.claims| && claim < |db'.claims| && db.claims[claim] == db'.claims[claim]
    && (claim in db.receipts <==> claim in db'.receipts)
    && (claim in db.receipts ==> db.receipts[claim] == db'.receipts[claim])
    && SameChallenges(db.challenges, db'.challenges, claim)
  }

  ghost predicate SameChallenges(cs: seq<Challenge>, cs': seq<Challenge>, claim: nat) {
    && |cs| <= |cs'|
    && (forall k | 0 <= k < |cs| :: cs'[k].claimId == cs[k].claimId && (cs[k].claimId == claim ==> cs'[k] == cs[k]))
    && (forall k | |cs| <= k < |cs'| :: cs'[k].claimId != claim)
  }

  lemma SameLatest(db: Db, db': Db, claim: nat)
    requires SameChallenges(db.challenges, db'.challenges, claim)
    ensures LatestChallenge(db, claim) == LatestChallenge(db', claim)
    ensures forall status :: LatestIs(db, claim, status) == LatestIs(db', claim, status)
  {
    var a, b := LatestChallenge(db, claim), LatestChallenge(db', claim);
    forall k | 0 <= k < |db'.challenges|
      ensures Suits(db'.challenges[k], claim, None) <==> k < |db.challenges| && Suits(db.challenges[k], claim, None)
    {
    }
    if a.Some? { assert Suits(db'.challenges[a.value], claim, None); }
    if b.Some? { assert Suits(db.challenges[b.value], claim, None); }
  }

  lemma ClaimOkFrame(db: Db, db': Db, claim: nat)
    requires SameClaim(db, db', claim) && ClaimOk(db, claim)
    ensures ClaimOk(db', claim)
  {
    hide LatestChallenge, LatestIs;
    SameLatest(db, db', claim);
  }

  lemma CreatedSound(db: Db, wallet: string, campaign: string)
    requires Sound(db) && FindClaim(db, wallet, campaign).None?
    ensures Sound(Created(db, wallet, campaign))
  {
    hide ClaimOk;
    var db', n := Created(db, wallet, campaign), |db.claims|;
    forall i | 0 <= i < |db'.claims| ensures ClaimOk(db', i) {
      if i < n { ClaimOkFrame(db, db', i); } else { NewClaimOk(db, db', n); }
    }
  }

  lemma NewClaimOk(db: Db, db': Db, n: nat)
    requires ChallengesOk(db) && n == |db.claims| < |db'.claims| && n !in db'.receipts
    requires db'.claims[n].decision == PENDING_REVIEW && db'.challenges == db.challenges
    ensures ClaimOk(db', n)
  {
  }

  /** Closing the open challenge of a claim that is still being challenged. */
  lemma ResolvedSound(db: Db, k: nat, status: ChallengeStatus, nullifier: Option<nat>)
    requires Sound(db) && k < |db.challenges| && db.challenges[k].challengeStatus == ISSUED && status != ISSUED
    requires status == PASSED ==> nullifier.Some?
    requires nullifier == db.challenges[k].nullifier
      || (nullifier.Some? && !Used(db, nullifier.value, db.challenges[k].action, k))
    ensures Sound(Resolved(db, k, status, nullifier))
    ensures db.claims[db.challenges[k].claimId].decision == CHALLENGE
  {
    hide ClaimOk;
    var db', id := Resolved(db, k, status, nullifier), db.challenges[k].claimId;
    ResolvedChallengesOk(db, k, status, nullifier);
    OpenMeansChallenged(db, k);
    forall i | 0 <= i < |db'.claims| ensures ClaimOk(db', i) {
      if i == id { ResolvedClaimOk(db, k, status, nullifier); } else { ClaimOkFrame(db, db', i); }
    }
  }

  lemma OpenMeansChallenged(db: Db, k: nat)
    requires ChallengesOk(db) && k < |db.challenges| && db.challenges[k].challengeStatus == ISSUED
    requires ClaimOk(db, db.challenges[k].claimId)
    ensures db.claims[db.challenges[k].claimId].decision == CHALLENGE
  {
    OneOpenChallenge(db, k, k);
  }

  lemma ResolvedChallengesOk(db: Db, k: nat, status: ChallengeStatus, nullifier: Option<nat>)
    requires ChallengesOk(db) && k < |db.challenges| && status != ISSUED
    requires status == PASSED ==> nullifier.Some?
    requires nullifier == db.challenges[k].nullifier
      || (nullifier.Some? && !Used(db, nullifier.value, db.challenges[k].action, k))
    ensures ChallengesOk(Resolved(db, k, status, nullifier))
  {
  }

  lemma ResolvedClaimOk(db: Db, k: nat, status: ChallengeStatus, nullifier: Option<nat>)
    requires ChallengesOk(db) && k < |db.challenges| && db.challenges[k].challengeStatus == ISSUED
    requires ClaimOk(db, db.challenges[k].claimId)
    requires db.claims[db.challenges[k].claimId].decision == CHALLENGE
    ensures ClaimOk(Resolved(db, k, status, nullifier), db.challenges[k].claimId)
  {
    OneOpenChallenge(db, k, k);
    var db', id := Resolved(db, k, status, nullifier), db.challenges[k].claimId;
    assert Suits(db'.challenges[k], id, None);
  }

  /** A new prompt for a claim that has none open. */
  lemma IssuedChallengesOk(db: Db, claim: nat, action: string)
    requires ChallengesOk(db) && claim < |db.claims| && OpenChallenge(db, claim).None?
    ensures ChallengesOk(Issued(db, claim, action))
  {
    forall j | 0 <= j < |db.challenges| && db.challenges[j].claimId == claim
      ensures db.challenges[j].challengeStatus != ISSUED
    {
      assert !Suits(db.challenges[j], claim, Some(ISSUED));
    }
  }

  lemma IssuedLatest(db: Db, claim: nat, action: string)
    ensures LatestChallenge(Issued(db, claim, action), claim) == Some(|db.challenges|)
    ensures LatestIs(Issued(db, claim, action), claim, ISSUED)
  {
  }

  lemma NothingOpenAfterClosing(db: Db, claim: nat, k: nat, status: ChallengeStatus, nullifier: Option<nat>)
    requires ChallengesOk(db) && OpenChallenge(db, claim) == Some(k) && status != ISSUED
    ensures OpenChallenge(Resolved(db, k, status, nullifier), claim).None?
  {
    var db' := Resolved(db, k, status, nullifier);
    forall j | 0 <= j < |db'.challenges| ensures !Suits(db'.challenges[j], claim, Some(ISSUED)) {
      if j != k && db.challenges[j].claimId == claim { OneOpenChallenge(db, k, j); }
    }
  }

  /** The claim now has a challenge `k`; every other claim is as it was. */
  ghost predicate Challenges(db: Db, db': Db, claim: nat, k: nat) {
    && db'.claims == db.claims && db'.receipts == db.receipts && db'.now == db.now
    && ChallengesOk(db') && Challenged(db', claim)
    && k < |db'.challenges| && db'.challenges[k].claimId == claim
    && forall i | 0 <= i < |db.claims| && i != claim :: SameClaim(db, db', i)
  }

  lemma ReuseEffect(db: Db, claim: nat, k: nat)
    requires ChallengesOk(db) && claim < |db.claims| && k < |db.challenges| && db.challenges[k].claimId == claim
    ensures Challenges(db, db, claim, k)
  {
    HasOne(db, claim, k);
  }

  lemma IssueEffect(db: Db, claim: nat, action: string)
    requires ChallengesOk(db) && claim < |db.claims| && OpenChallenge(db, claim).None?
    ensures Challenges(db, Issued(db, claim, action), claim, |db.challenges|)
  {
    hide LatestChallenge, OpenChallenge, LatestIs;
    IssuedChallengesOk(db, claim, action);
    IssuedLatest(db, claim, action);
  }

  lemma CloseAndIssueEffect(db: Db, claim: nat, action: string, k: nat)
    requires ChallengesOk(db) && claim < |db.claims| && OpenChallenge(db, claim) == Some(k)
    ensures
      var closed := Resolved(db, k, TIMED_OUT, db.challenges[k].nullifier);
      Challenges(db, Issued(closed, claim, action), claim, |db.challenges|)
  {
    var closed := Resolved(db, k, TIMED_OUT, db.challenges[k].nullifier);
    ResolvedChallengesOk(db, k, TIMED_OUT, db.challenges[k].nullifier);
    NothingOpenAfterClosing(db, claim, k, TIMED_OUT, db.challenges[k].nullifier);
    hide LatestChallenge, OpenChallenge, ChallengesOk;
    IssueEffect(closed, claim, action);
    forall i | 0 <= i < |db.claims| && i != claim ensures SameClaim(db, Issued(closed, claim, action), i) {
      assert SameClaim(closed, Issued(closed, claim, action), i);
    }
  }

  lemma IssueOrReuseEffect(db: Db, claim: nat, action: string, clocks: Clocks)
    requires ChallengesOk(db) && claim < |db.claims|
    ensures
      var (db', k) := IssueOrReuse(db, claim, action, clocks);
      Challenges(db, db', claim, k)
  {
    hide Challenges, ChallengesOk, Resolved, Issued;
    var passed := RecentPass(db.challenges, |db.challenges|, claim, db.now - clocks.validity);
    var open := OpenChallenge(db, claim);
    if passed.Some? {
      ReuseEffect(db, claim, passed.value);
    } else if open.Some? && !TimedOut(db, open.value, clocks) {
      ReuseEffect(db, claim, open.value);
    } else if open.Some? {
      CloseAndIssueEffect(db, claim, action, open.value);
    } else {
      IssueEffect(db, claim, action);
    }
  }

  lemma HasOne(db: Db, claim: nat, k: nat)
    requires k < |db.challenges| && db.challenges[k].claimId == claim
    ensures Challenged(db, claim)
  {
    assert Suits(db.challenges[k], claim, None);
  }

  lemma ReissueSound(db: Db, claim: nat, clocks: Clocks)
    requires Sound(db) && claim < |db.claims|
    ensures Sound(Reissue(db, claim, clocks))
  {
    hide ClaimOk, IssueOrReuse;
    if db.claims[claim].decision == CHALLENGE {
      var (db', k) := IssueOrReuse(db, claim, db.claims[claim].campaign, clocks);
      IssueOrReuseEffect(db, claim, db.claims[claim].campaign, clocks);
      forall i | 0 <= i < |db'.claims| ensures ClaimOk(db', i) {
        if i == claim { StillChallengedOk(db, db', claim); } else { ClaimOkFrame(db, db', i); }
      }
    }
  }

  lemma StillChallengedOk(db: Db, db': Db, claim: nat)
    requires claim < |db.claims| && ClaimOk(db, claim) && db.claims[claim].decision == CHALLENGE
    requires db'.claims == db.claims && db'.receipts == db.receipts && Challenged(db', claim)
    ensures ClaimOk(db', claim)
  {
  }

  /** The locked write keeps the invariant, whatever was computed outside the lock. */
  lemma ScreenedSound(db: Db, claim: nat, d: PolicyDecision, clocks: Clocks)
    requires Sound(db) && claim < |db.claims| && Coherent(d)
    ensures Sound(Screened(db, claim, d, clocks))
  {
    hide ClaimOk, IssueOrReuse, Recorded;
    if !Sticky(db.claims[claim].decision) {
      if d.decision == CHALLENGE {
        var (issued, k) := IssueOrReuse(db, claim, db.claims[claim].campaign, clocks);
        IssueOrReuseEffect(db, claim, db.claims[claim].campaign, clocks);
        forall i | 0 <= i < |db.claims| && i != claim ensures ClaimOk(issued, i) { ClaimOkFrame(db, issued, i); }
        RecordedSound(issued, claim, d, Some(k));
      } else {
        PendingUnchallenged(db, claim);
        RecordedSound(db, claim, d, None);
      }
    }
  }

  lemma PendingUnchallenged(db: Db, claim: nat)
    requires claim < |db.claims| && ClaimOk(db, claim) && db.claims[claim].decision == PENDING_REVIEW
    ensures !Challenged(db, claim)
  {
  }

  lemma RecordedSound(db: Db, claim: nat, d: PolicyDecision, challenge: Option<nat>)
    requires claim < |db.claims| && Coherent(d) && UniqueClaims(db) && ChallengesOk(db)
    requires forall i | i in db.receipts :: i < |db.claims|
    requires forall i | 0 <= i < |db.claims| && i != claim :: ClaimOk(db, i)
    requires Challenged(db, claim) <==> d.decision == CHALLENGE
    ensures Sound(Recorded(db, claim, d, challenge))
  {
    hide ClaimOk;
    var db' := Recorded(db, claim, d, challenge);
    forall i | 0 <= i < |db'.claims| ensures ClaimOk(db', i) {
      if i == claim { RecordedClaimOk(db, claim, d, challenge); } else { ClaimOkFrame(db, db', i); }
    }
  }

  lemma RecordedClaimOk(db: Db, claim: nat, d: PolicyDecision, challenge: Option<nat>)
    requires claim < |db.claims| && Coherent(d)
    requires Challenged(db, claim) <==> d.decision == CHALLENGE
    ensures ClaimOk(Recorded(db, claim, d, challenge), claim)
  {
    var db' := Recorded(db, claim, d, challenge);
    SameLatest(db, db', claim);
  }

  lemma VerificationSound(db: Db, claim: nat, outcome: ProofOutcome)
    requires Sound(db)
    ensures Sound(Verification(db, claim, outcome).0)
  {
    hide Sound, Resolved, Used;
    var open := OpenChallenge(db, claim);
    if open.Some? {
      var k := open.value;
      ResolvedSound(db, k, FAILED, db.challenges[k].nullifier);
      if outcome.Verified? && outcome.proof.Some? && !Used(db, outcome.proof.value, db.challenges[k].action, k) {
        ResolvedSound(db, k, PASSED, outcome.proof);
      }
    }
  }

  /** A pass is answered only for a bound proof, and records exactly that proof on the open challenge. */
  lemma PassRecordsProof(db: Db, claim: nat, outcome: ProofOutcome)
    requires Verification(db, claim, outcome).1 == PROOF_PASSED
    ensures outcome.Verified? && outcome.bound && outcome.proof.Some?
    ensures
      var k := OpenChallenge(db, claim);
      && k.Some? && |Verification(db, claim, outcome).0.challenges| == |db.challenges|
      && forall j | 0 <= j < |db.challenges| ::
        Verification(db, claim, outcome).0.challenges[j] ==
          if j == k.value
          then Challenge(claim, PASSED, db.challenges[j].createdAt, db.now, outcome.proof, db.challenges[j].action)
          else db.challenges[j]
  {
  }

  /** Two passed challenges of one action name different proofs. */
  lemma PassesDiffer(db: Db, j: nat, k: nat)
    requires ChallengesOk(db) && j < |db.challenges| && k < |db.challenges| && j != k
    requires db.challenges[j].challengeStatus == PASSED == db.challenges[k].challengeStatus
    requires db.challenges[j].action == db.challenges[k].action
    ensures db.challenges[j].nullifier.Some? && db.challenges[k].nullifier.Some?
    ensures db.challenges[j].nullifier != db.challenges[k].nullifier
  {
  }

  /** A proof that passed on an action is refused on every other challenge of that action. */
  lemma SpentProofRefused(db: Db, j: nat, claim: nat, bound: bool)
    requires j < |db.challenges| && db.challenges[j].nullifier.Some? && db.challenges[j].challengeStatus != ISSUED
    requires OpenChallenge(db, claim).Some?
    requires db.challenges[OpenChallenge(db, claim).value].action == db.challenges[j].action
    ensures
      var (after, status) := Verification(db, claim, Verified(bound, db.challenges[j].nullifier));
      var k := OpenChallenge(db, claim).value;
      && status == PROOF_FAILED && k < |after.challenges| && after.challenges[k].challengeStatus == FAILED
      && after.challenges[k].nullifier == db.challenges[k].nullifier
  {
    assert j != OpenChallenge(db, claim).value;
    assert Used(db, db.challenges[j].nullifier.value, db.challenges[j].action, OpenChallenge(db, claim).value);
  }

  /** No other challenge of the action carries the proof. */
  predicate Unspent(db: Db, open: nat, proof: Option<nat>)
    requires open < |db.challenges|
  {
    forall k | 0 <= k < |db.challenges| && k != open && db.challenges[k].nullifier == proof ::
      db.challenges[k].action != db.challenges[open].action
  }

  /**
   * What a proof is answered: nothing happens without an open challenge or without an answer from the verifier; a
   * bound, readable and unspent proof passes; and everything else fails the challenge.
   */
  lemma VerificationExact(db: Db, claim: nat, outcome: ProofOutcome)
    ensures
      var open, (after, status) := OpenChallenge(db, claim), Verification(db, claim, outcome);
      if open.None? then after == db && status == NOTHING_OPEN
      else if outcome == Unavailable then after == db && status == RETRYABLE
      else
        && |after.challenges| == |db.challenges|
        && if outcome.Verified? && outcome.bound && outcome.proof.Some? && Unspent(db, open.value, outcome.proof)
           then status == PROOF_PASSED && after.challenges[open.value].challengeStatus == PASSED
           else status == PROOF_FAILED && after.challenges[open.value].challengeStatus == FAILED
  {
    if OpenChallenge(db, claim).Some? && outcome.Verified? && outcome.proof.Some? {
      var open := OpenChallenge(db, claim).value;
      assert Used(db, outcome.proof.value, db.challenges[open].action, open) <==>
             exists k :: 0 <= k < |db.challenges| && k != open
               && db.challenges[k].nullifier == outcome.proof && db.challenges[k].action == db.challenges[open].action;
    }
  }

  lemma ChallengedHasReceipt(db: Db, claim: nat)
    requires Sound(db) && claim < |db.claims|
    ensures Sticky(db.claims[claim].decision) ==> claim in db.receipts
  {
    assert ClaimOk(db, claim);
  }

  /** Finalizing keeps the invariant, and answers ALLOW exactly when the latest challenge passed. */
  lemma FinalizationSound(db: Db, claim: nat)
    requires Sound(db) && claim < |db.claims|
    ensures db.claims[claim].decision == CHALLENGE ==> claim in db.receipts
    ensures Sound(Finalization(db, claim).0)
    ensures Finalization(db, claim).1 != NO_CHALLENGE
    ensures Finalization(db, claim).1 == FINALIZED ==>
      (Finalization(db, claim).0.claims[claim].decision == ALLOW <==> LatestIs(db, claim, PASSED))
  {
    ChallengedHasReceipt(db, claim);
    assert ClaimOk(db, claim);
    var (db', status) := Finalization(db, claim);
    if status == FINALIZED {
      FinalizedClaimOk(db, claim);
      hide ClaimOk, LatestChallenge;
      forall i | 0 <= i < |db'.claims| && i != claim ensures ClaimOk(db', i) { ClaimOkFrame(db, db', i); }
    }
  }

  /** Finalizing leaves an unchallenged claim alone and waits for an open prompt. */
  lemma FinalizationExact(db: Db, claim: nat)
    requires Sound(db) && claim < |db.claims|
    ensures db.claims[claim].decision == CHALLENGE ==> claim in db.receipts
    ensures
      var (after, status) := Finalization(db, claim);
      if db.claims[claim].decision != CHALLENGE then after == db && status == UNCHANGED
      else if OpenChallenge(db, claim).Some? then after == db && status == OUTSTANDING
      else
        && status == FINALIZED && |after.claims| == |db.claims| && claim in after.receipts
        && after.receipts[claim].decision == after.claims[claim].decision
        && after.receipts[claim].challengeId == LatestChallenge(db, claim)
  {
    ChallengedHasReceipt(db, claim);
    assert ClaimOk(db, claim);
    var open := OpenChallenge(db, claim);
    if open.Some? { OneOpenChallenge(db, open.value, open.value); }
    var latest := LatestChallenge(db, claim);
    if latest.Some? && open.None? { assert !Suits(db.challenges[latest.value], claim, Some(ISSUED)); }
  }

  lemma FinalizedClaimOk(db: Db, claim: nat)
    requires claim < |db.claims| && ClaimOk(db, claim) && claim in db.receipts
    requires Finalization(db, claim).1 == FINALIZED
    ensures ClaimOk(Finalization(db, claim).0, claim)
  {
    SameLatest(db, Finalization(db, claim).0, claim);
  }

  // ---- how a challenge ends ----

  /** The proof answers this claim's prompt: bound to it, readable, and not spent on the same action before. */
  predicate Acceptable(db: Db, k: nat, outcome: ProofOutcome)
    requires k < |db.challenges|
  {
    outcome.Verified? && outcome.bound && outcome.proof.Some?
    && !Used(db, outcome.proof.value, db.challenges[k].action, k)
  }

  lemma ResolvedLatest(db: Db, k: nat, status: ChallengeStatus, nullifier: Option<nat>)
    requires ChallengesOk(db) && k < |db.challenges| && db.challenges[k].challengeStatus == ISSUED
    ensures
      var db', claim := Resolved(db, k, status, nullifier), db.challenges[k].claimId;
      LatestChallenge(db', claim) == Some(k) && db'.challenges[k].challengeStatus == status
  {
    OneOpenChallenge(db, k, k);
    var db', claim := Resolved(db, k, status, nullifier), db.challenges[k].claimId;
    assert Suits(db'.challenges[k], claim, None);
    forall j | k < j < |db'.challenges| ensures !Suits(db'.challenges[j], claim, None) {
      assert !Suits(db.challenges[j], claim, None);
    }
  }

  /**
   * Verifying and then finalizing a challenged claim allows it exactly when the proof was acceptable,
   * blocks it on any other answer, and leaves it challenged when there was no answer.
   */
  lemma VerifyThenFinalize(db: Db, claim: nat, outcome: ProofOutcome)
    requires Sound(db) && claim < |db.claims| && db.claims[claim].decision == CHALLENGE
    requires OpenChallenge(db, claim).Some?
    ensures claim < |Verification(db, claim, outcome).0.claims| && claim in Verification(db, claim, outcome).0.receipts
    ensures
      var (after, status) := Finalization(Verification(db, claim, outcome).0, claim);
      if outcome == Unavailable then status == OUTSTANDING && after == db
      else
        && status == FINALIZED
        && after.claims[claim].decision ==
             (if Acceptable(db, OpenChallenge(db, claim).value, outcome) then ALLOW else BLOCK)
  {
    hide Used, UniqueClaims;
    ChallengedHasReceipt(db, claim);
    assert ClaimOk(db, claim);
    var k := OpenChallenge(db, claim).value;
    OneOpenChallenge(db, k, k);
    ResolvedLatest(db, k, FAILED, db.challenges[k].nullifier);
    if outcome.Verified? { ResolvedLatest(db, k, PASSED, outcome.proof); }
  }

  /** Asking for a challenge again always leaves something to act on: a recent pass, or a prompt still in time. */
  lemma ReissueLeavesAnswerable(db: Db, claim: nat, action: string, clocks: Clocks)
    ensures
      var (db', k) := IssueOrReuse(db, claim, action, clocks);
      && k < |db'.challenges| && db'.challenges[k].claimId == claim
      && ((Suits(db'.challenges[k], claim, Some(PASSED)) && db'.challenges[k].resolvedAt >= db.now - clocks.validity)
          || (Suits(db'.challenges[k], claim, Some(ISSUED)) && !TimedOut(db', k, clocks)))
  {
  }

  predicate PassedWithin(db: Db, j: nat, claim: nat, clocks: Clocks) {
    && j < |db.challenges| && db.challenges[j].claimId == claim && db.challenges[j].challengeStatus == PASSED
    && db.now - db.challenges[j].resolvedAt <= clocks.validity
  }

  predicate OpenWithin(db: Db, j: nat, claim: nat, clocks: Clocks) {
    && j < |db.challenges| && db.challenges[j].claimId == claim && db.challenges[j].challengeStatus == ISSUED
    && db.now - db.challenges[j].createdAt <= clocks.ttl
  }

  /** A new prompt, with whatever prompt the claim had open closed as timed out. */
  predicate Prompted(db: Db, db': Db, claim: nat, action: string) {
    var n := |db.challenges|;
    && |db'.challenges| == n + 1 && db' == db.(challenges := db'.challenges)
    && db'.challenges[n] == Challenge(claim, ISSUED, db.now, db.now, None, action)
    && forall j | 0 <= j < n ::
      var c := db.challenges[j];
      db'.challenges[j] == if c.claimId == claim && c.challengeStatus == ISSUED
                           then c.(challengeStatus := TIMED_OUT, resolvedAt := db.now) else c
  }

  /**
   * What asking again does: a pass resolved within the validity is answered, the one resolved last; failing that, a
   * prompt no older than its time limit; failing that, the stale prompt is closed and a new one is issued.
   */
  lemma IssueOrReuseMeans(db: Db, claim: nat, action: string, clocks: Clocks)
    requires ChallengesOk(db)
    ensures
      var (db', k) := IssueOrReuse(db, claim, action, clocks);
      if exists j: nat :: PassedWithin(db, j, claim, clocks) then
        && db' == db && PassedWithin(db, k, claim, clocks)
        && forall j: nat | PassedWithin(db, j, claim, clocks) ::
          db.challenges[j].resolvedAt <= db.challenges[k].resolvedAt
      else if exists j: nat :: OpenWithin(db, j, claim, clocks) then db' == db && OpenWithin(db, k, claim, clocks)
      else k == |db.challenges| && Prompted(db, db', claim, action)
  {
    hide IssueOrReuse;
    var passed := RecentPass(db.challenges, |db.challenges|, claim, db.now - clocks.validity);
    if j: nat :| PassedWithin(db, j, claim, clocks) {
      assert Suits(db.challenges[j], claim, Some(PASSED));
      assert PassedWithin(db, passed.value, claim, clocks);
      ReuseMeans(db, claim, action, clocks);
      forall j: nat | PassedWithin(db, j, claim, clocks)
        ensures db.challenges[j].resolvedAt <= db.challenges[passed.value].resolvedAt
      {
        assert Suits(db.challenges[j], claim, Some(PASSED));
      }
    } else {
      NoRecentPass(db, claim, clocks);
      PromptMeans(db, claim, action, clocks);
    }
  }

  lemma NoRecentPass(db: Db, claim: nat, clocks: Clocks)
    requires forall j: nat :: !PassedWithin(db, j, claim, clocks)
    ensures RecentPass(db.challenges, |db.challenges|, claim, db.now - clocks.validity).None?
  {
    var passed := RecentPass(db.challenges, |db.challenges|, claim, db.now - clocks.validity);
    forall j: nat | passed == Some(j) ensures false { assert PassedWithin(db, j, claim, clocks); }
  }

  lemma ReuseMeans(db: Db, claim: nat, action: string, clocks: Clocks)
    requires RecentPass(db.challenges, |db.challenges|, claim, db.now - clocks.validity).Some?
    ensures
      var (db', k) := IssueOrReuse(db, claim, action, clocks);
      db' == db && Some(k) == RecentPass(db.challenges, |db.challenges|, claim, db.now - clocks.validity)
  {
  }

  /** Without a recent pass, the one open prompt decides. */
  lemma PromptMeans(db: Db, claim: nat, action: string, clocks: Clocks)
    requires ChallengesOk(db)
    requires RecentPass(db.challenges, |db.challenges|, claim, db.now - clocks.validity).None?
    ensures
      var (db', k) := IssueOrReuse(db, claim, action, clocks);
      if exists j: nat :: OpenWithin(db, j, claim, clocks) then db' == db && OpenWithin(db, k, claim, clocks)
      else k == |db.challenges| && Prompted(db, db', claim, action)
  {
    hide RecentPass;
    var open := OpenChallenge(db, claim);
    forall j |
      0 <= j < |db.challenges| && db.challenges[j].claimId == claim && db.challenges[j].challengeStatus == ISSUED
      ensures open == Some(j)
    {
      assert Suits(db.challenges[j], claim, Some(ISSUED));
      OneOpenChallenge(db, j, open.value);
    }
    if open.Some? && db.now - db.challenges[open.value].createdAt <= clocks.ttl {
      assert OpenWithin(db, open.value, claim, clocks);
    }
  }
}
