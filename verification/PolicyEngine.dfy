/** From a risk assessment to the decision it requires (`policy-engine.ts`). */
module PolicyEngine {
  import opened Common
  import Sorting
  import opened Scoring

  datatype Decision = PENDING_REVIEW | CHALLENGE | ALLOW | BLOCK

  datatype ClusterRisk = ClusterRisk(pendingReview: bool, riskScore: real, clusterId: Option<string>)

  datatype PolicyDecision = PolicyDecision(
    decision: Decision, requiredAssurance: Option<string>, riskScore: real, clusterId: Option<string>)

  const SELFIE_CHECK: string := "SELFIE_CHECK"

  /** The status is read before the score: an assessment that could not vouch for its data is held. */
  function Decide(risk: ClusterRisk, thresholds: seq<Threshold>): PolicyDecision {
    var held := PolicyDecision(PENDING_REVIEW, None, risk.riskScore, risk.clusterId);
    if risk.pendingReview then held
    else
      var band := PolicyBand(thresholds, risk.riskScore);
      if band.None? || band.value == "" then held
      else if band.value == "ALLOW" then held.(decision := ALLOW, requiredAssurance := None)
      else if band.value == "CHALLENGE" then held.(decision := CHALLENGE, requiredAssurance := Some(SELFIE_CHECK))
      else if band.value == "BLOCK" then held.(decision := BLOCK, requiredAssurance := None)
      else held
  }

  /** The decision a band name stands for; a name nobody mapped is held. */
  function DecisionFor(band: Option<string>): Decision {
    if band == Some("ALLOW") then ALLOW
    else if band == Some("CHALLENGE") then CHALLENGE
    else if band == Some("BLOCK") then BLOCK
    else PENDING_REVIEW
  }

  predicate Coherent(d: PolicyDecision) { d.requiredAssurance.Some? <==> d.decision == CHALLENGE }

  /** Branch by branch, the decision is the one the band stands for, and only a challenge asks for assurance. */
  lemma DecideCoherent(risk: ClusterRisk, thresholds: seq<Threshold>)
    ensures Coherent(Decide(risk, thresholds))
    ensures Decide(risk, thresholds).decision ==
      if risk.pendingReview then PENDING_REVIEW else DecisionFor(PolicyBand(thresholds, risk.riskScore))
  {
  }

  /** Whatever is decided, the assessment's score and cluster are carried along. */
  lemma DecideCarries(risk: ClusterRisk, thresholds: seq<Threshold>)
    ensures Decide(risk, thresholds).riskScore == risk.riskScore
    ensures Decide(risk, thresholds).clusterId == risk.clusterId
  {
  }

  /** On exact tilings the policy engine allows precisely the scores that the scorer itself bands ALLOW. */
  lemma DecideFollowsScorer(risk: ClusterRisk, thresholds: seq<Threshold>, rows: seq<Threshold>)
    requires !risk.pendingReview && 0.0 <= risk.riskScore <= 1.0
    requires ExactTiling(Sorting.Sort(thresholds, ByMin)) && multiset(rows) == multiset(thresholds)
    ensures Rank(thresholds, risk.riskScore).Some?
    ensures Decide(risk, rows).decision ==
      DecisionFor(Some(Sorting.Sort(thresholds, ByMin)[Rank(thresholds, risk.riskScore).value].band))
  {
    BandsAgree(thresholds, rows, risk.riskScore);
  }

  /** What is decided, by the name of the band that the scorer's own row gives the score. */
  lemma DecisionByBand(risk: ClusterRisk, thresholds: seq<Threshold>, rows: seq<Threshold>)
    requires !risk.pendingReview && 0.0 <= risk.riskScore <= 1.0
    requires ExactTiling(Sorting.Sort(thresholds, ByMin)) && multiset(rows) == multiset(thresholds)
    ensures Rank(thresholds, risk.riskScore).Some?
    ensures
      var band := Sorting.Sort(thresholds, ByMin)[Rank(thresholds, risk.riskScore).value].band;
      var d := Decide(risk, rows);
      && (d.decision == ALLOW <==> band == "ALLOW") && (d.decision == BLOCK <==> band == "BLOCK")
      && (d.decision == CHALLENGE <==> band == "CHALLENGE")
      && d.riskScore == risk.riskScore && d.clusterId == risk.clusterId
      && d.requiredAssurance == if band == "CHALLENGE" then Some("SELFIE_CHECK") else None
  {
    BandsAgree(thresholds, rows, risk.riskScore);
  }

  /** An assessment that could not vouch for its data is held, whatever its score. */
  lemma UnvouchedIsHeld(risk: ClusterRisk, thresholds: seq<Threshold>)
    requires risk.pendingReview
    ensures Decide(risk, thresholds) == PolicyDecision(PENDING_REVIEW, None, risk.riskScore, risk.clusterId)
  {
  }
}
