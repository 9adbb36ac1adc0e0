/** The claim gate as it runs: tables updated in place by the orchestrator's operations. */
module ClaimService {
  import opened Common
  import opened CapabilityTypes
  import opened Scoring
  import opened PolicyEngine
  import opened ClaimGate
  import opened ClaimRuns

  class ClaimService {
    var claims: seq<Claim>
    var challenges: seq<Challenge>
    var receipts: map<nat, Receipt>
    var now: int
    const clocks: Clocks

    ghost function Contents(): Db
      reads this
    {
      Db(claims, challenges, receipts, now)
    }

    ghost predicate Valid()
      reads this
    {
      Sound(Contents())
    }

    constructor (limits: Clocks)
      ensures Valid() && Contents() == EMPTY.db && clocks == limits
    {
      claims, challenges, receipts, now, clocks := [], [], map[], 0, limits;
    }

    /** Find, else create; the unique constraint makes the second of two creators find the first's row. */
    method GetOrCreateClaim(wallet: string, campaign: string) returns (claim: nat, created: bool)
      requires Valid()
      modifies this`claims
      ensures Valid()
      ensures created <==> FindClaim(old(Contents()), wallet, campaign).None?
      ensures Contents() == if created then Created(old(Contents()), wallet, campaign) else old(Contents())
      ensures FindClaim(Contents(), wallet, campaign) == Some(claim)
      ensures created ==> claims[claim].decision == PENDING_REVIEW
    {
      hide Sound;
      var found := FindFrom(claims, wallet, campaign, 0);
      if found.Some? { return found.value, false; }
      ghost var before := Contents();
      CreatedSound(before, wallet, campaign);
      claims := claims + [Claim(wallet, campaign, PENDING_REVIEW, None)];
      SoundUnique(Contents());
      assert claims[|claims| - 1].wallet == wallet && claims[|claims| - 1].campaign == campaign;
      ghost var again := FindFrom(claims, wallet, campaign, 0);
      OneClaim(Contents(), again.value, |claims| - 1);
      return |claims| - 1, true;
    }

    method CloseChallenge(k: nat, status: ChallengeStatus, proof: Option<nat>)
      requires k < |challenges|
      modifies this`challenges
      ensures Contents() == Resolved(old(Contents()), k, status, proof)
    {
      challenges := challenges[k := challenges[k].(challengeStatus := status, resolvedAt := now, nullifier := proof)];
    }

    method IssueOrReuseChallenge(claim: nat, action: string) returns (challenge: nat, reused: bool)
      modifies this`challenges
      ensures (Contents(), challenge) == IssueOrReuse(old(Contents()), claim, action, clocks)
      ensures reused <==> Contents() == old(Contents())
    {
      hide RecentPass, Newest;
      var passed := RecentPass(challenges, |challenges|, claim, now - clocks.validity);
      if passed.Some? { return passed.value, true; }
      var open := Newest(challenges, |challenges|, claim, Some(ISSUED));
      if open.Some? && now - challenges[open.value].createdAt <= clocks.ttl { return open.value, true; }
      if open.Some? { CloseChallenge(open.value, TIMED_OUT, challenges[open.value].nullifier); }
      challenge, reused := |challenges|, false;
      challenges := challenges + [Challenge(claim, ISSUED, now, now, None, action)];
    }

    method WriteEvidenceReceipt(claim: nat, d: PolicyDecision, challenge: Option<nat>) returns (id: nat)
      modifies this`receipts
      ensures id == ReceiptId(old(Contents()), claim)
      ensures claim in old(receipts) ==> id == old(receipts)[claim].id
      ensures receipts == old(receipts)[claim :=
        Receipt(id, d.decision, d.clusterId, d.riskScore, d.requiredAssurance, challenge)]
    {
      id := if claim in receipts then receipts[claim].id else |receipts|;
      receipts := receipts[claim := Receipt(id, d.decision, d.clusterId, d.riskScore, d.requiredAssurance, challenge)];
    }

    /** The locked transaction: challenge, receipt and claim change together, or the winner's row is read. */
    method WriteDecision(claim: nat, d: PolicyDecision) returns (r: Screening)
      requires Valid() && claim < |claims| && Coherent(d)
      modifies this`claims, this`challenges, this`receipts
      ensures Valid()
      ensures Contents() == Screened(old(Contents()), claim, d, clocks)
      ensures r == Answer(old(Contents()), claim, d, clocks)
      ensures Sticky(r.decision) ==> Backed(Contents(), r)
    {
      hide Sound, IssueOrReuse, Backed, LatestChallenge;
      ghost var before := Contents();
      ScreenedSound(before, claim, d, clocks);
      AnswerBacked(before, claim, d, clocks);
      if Sticky(claims[claim].decision) {
        r := StoredAnswer(claim, claims[claim].decision, claims[claim].cluster);
        return;
      }
      var challenge: Option<nat> := None;
      if d.decision == CHALLENGE {
        OwnersKept(before, claim, claims[claim].campaign, clocks);
        var k, reused := IssueOrReuseChallenge(claim, claims[claim].campaign);
        challenge := Some(k);
      }
      var id := WriteEvidenceReceipt(claim, d, challenge);
      claims := claims[claim := claims[claim].(decision := d.decision, cluster := d.clusterId)];
      r := Screening(claim, d.decision, d.clusterId, d.riskScore, d.requiredAssurance, Some(id), challenge);
    }

    method StoredAnswer(claim: nat, decision: Decision, cluster: Option<string>) returns (r: Screening)
      ensures r == Stored(Contents(), claim, decision, cluster)
    {
      var challenge := Newest(challenges, |challenges|, claim, None);
      if claim in receipts {
        var receipt := receipts[claim];
        r := Screening(claim, decision, cluster, receipt.score, receipt.assurance, Some(receipt.id), challenge);
      } else {
        r := Screening(claim, decision, cluster, 0.0, None, None, challenge);
      }
    }

    /** One undisturbed call: a decided claim is replayed untouched, an undecided one is decided and recorded. */
    method ScreenClaim(wallet: string, campaign: string, risk: ClusterRisk, thresholds: seq<Threshold>)
      returns (r: Screening)
      requires Valid()
      modifies this`claims, this`challenges, this`receipts
      ensures Valid()
      ensures FindClaim(Contents(), ToLower(wallet), campaign) == Some(r.claimId)
      ensures Sticky(r.decision) ==> Backed(Contents(), r)
      ensures
        var found := FindClaim(old(Contents()), ToLower(wallet), campaign);
        if found.Some? && Sticky(old(claims)[found.value].decision) then
          Contents() == old(Contents()) && r.decision == old(claims)[found.value].decision
        else
          && r.decision == Decide(risk, thresholds).decision && r.claimId in receipts && r.claimId < |claims|
          && r.score == receipts[r.claimId].score == risk.riskScore
          && r.cluster == receipts[r.claimId].cluster == claims[r.claimId].cluster == risk.clusterId
          && r.receiptId == Some(receipts[r.claimId].id)
    {
      hide Sound, IssueOrReuse, Backed, LatestChallenge, Decide;
      var claim, created := GetOrCreateClaim(ToLower(wallet), campaign);
      ghost var before := Contents();
      if Sticky(claims[claim].decision) {
        r := StoredAnswer(claim, claims[claim].decision, claims[claim].cluster);
        StickyChallenged(before, claim);
        StoredBacked(before, claim, claims[claim].decision, claims[claim].cluster);
        return;
      }
      DecideCoherent(risk, thresholds);
      ScreenedCarriesAssessment(before, claim, risk, thresholds, clocks);
      DecideCarries(risk, thresholds);
      r := WriteDecision(claim, Decide(risk, thresholds));
      ScreenedKept(before, claim, Decide(risk, thresholds), clocks);
      FoundStill(before, Contents(), ToLower(wallet), campaign);
    }

    method VerifyClaim(claim: nat, outcome: ProofOutcome) returns (status: VerifyStatus)
      requires Valid()
      modifies this`challenges
      ensures Valid()
      ensures (Contents(), status) == Verification(old(Contents()), claim, outcome)
    {
      hide Sound, Newest;
      VerificationSound(Contents(), claim, outcome);
      var open := Newest(challenges, |challenges|, claim, Some(ISSUED));
      if open.None? { return NOTHING_OPEN; }
      var k := open.value;
      if outcome.Unavailable? { return RETRYABLE; }
      if outcome.Rejected? || outcome.Malformed? || !outcome.bound || outcome.proof.None? {
        CloseChallenge(k, FAILED, challenges[k].nullifier);
        return PROOF_FAILED;
      }
      var replayed := Used(Db(claims, challenges, receipts, now), outcome.proof.value, challenges[k].action, k);
      if replayed {
        CloseChallenge(k, FAILED, challenges[k].nullifier);
        return PROOF_FAILED;
      }
      CloseChallenge(k, PASSED, outcome.proof);
      status := PROOF_PASSED;
    }

    method FinalizeClaim(claim: nat) returns (status: FinalizeStatus)
      requires Valid() && claim < |claims|
      modifies this`claims, this`receipts
      ensures Valid()
      ensures old(claims)[claim].decision == CHALLENGE ==> claim in old(receipts)
      ensures (Contents(), status) == Finalization(old(Contents()), claim)
      ensures status == FINALIZED ==> (claims[claim].decision == ALLOW <==> LatestIs(old(Contents()), claim, PASSED))
    {
      hide Sound, Newest;
      FinalizationSound(Contents(), claim);
      if claims[claim].decision != CHALLENGE { return UNCHANGED; }
      var latest := Newest(challenges, |challenges|, claim, None);
      if latest.None? { return NO_CHALLENGE; }
      if challenges[latest.value].challengeStatus == ISSUED { return OUTSTANDING; }
      var decision := if challenges[latest.value].challengeStatus == PASSED then ALLOW else BLOCK;
      claims := claims[claim := claims[claim].(decision := decision)];
      receipts := receipts[claim := receipts[claim].(decision := decision, challengeId := latest)];
      status := FINALIZED;
    }

    method ReissueChallenge(claim: nat) returns (challenge: Option<nat>)
      requires Valid() && claim < |claims|
      modifies this`challenges
      ensures Valid()
      ensures Contents() == Reissue(old(Contents()), claim, clocks)
      ensures challenge.Some? <==> claims[claim].decision == CHALLENGE
      ensures challenge.Some? ==>
        challenge.value < |challenges| && challenges[challenge.value].claimId == claim
        && (PassedWithin(Contents(), challenge.value, claim, clocks)
            || OpenWithin(Contents(), challenge.value, claim, clocks))
    {
      hide Sound, IssueOrReuse;
      ghost var before := Contents();
      ReissueSound(before, claim, clocks);
      if claims[claim].decision != CHALLENGE { return None; }
      SoundChallenges(before);
      IssueOrReuseEffect(before, claim, claims[claim].campaign, clocks);
      OwnersKept(before, claim, claims[claim].campaign, clocks);
      IssueOrReuseMeans(before, claim, claims[claim].campaign, clocks);
      var k, reused := IssueOrReuseChallenge(claim, claims[claim].campaign);
      challenge := Some(k);
    }
  }

  /** A claim that was found is found again after anything that keeps the claims. */
  lemma FoundStill(db: Db, db': Db, wallet: string, campaign: string)
    requires Sound(db') && Kept(db, db') && FindClaim(db, wallet, campaign).Some?
    ensures FindClaim(db', wallet, campaign) == FindClaim(db, wallet, campaign)
  {
    var found, again := FindClaim(db, wallet, campaign), FindClaim(db', wallet, campaign);
    assert ClaimKept(db, db', found.value);
    OneClaim(db', found.value, again.value);
  }
}
