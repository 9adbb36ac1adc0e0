/** The intent service as it runs: rows written one after the other, once per idempotency key. */
module IntentService {
  import opened Common
  import opened CanonicalJson
  import opened HashPreimages
  import opened CapabilityTypes
  import opened RuleEngine
  import opened IntentProtocol

  class IntentService {
    var intents: seq<Intent>
    var decisions: seq<Decision>
    var receipts: seq<Receipt>
    var grants: seq<Grant>

    ghost function Contents(): Db
      reads this
    {
      Db(intents, decisions, receipts, grants)
    }

    ghost predicate Valid()
      reads this
    {
      TablesOk(Contents())
    }

    constructor ()
      ensures Valid() && Contents() == EmptyWorld().db
    {
      intents, decisions, receipts, grants := [], [], [], [];
    }

    method GetIntent(intent: nat, replayed: bool) returns (view: View)
      ensures view == ViewOf(Contents(), intent, replayed)
    {
      var decision := DecisionOf(decisions, |decisions|, intent);
      view := View(intent, decision, ReceiptOf(receipts, |receipts|, intent), replayed);
    }

    /** Decision, then the receipt that pins it. */
    method PersistDecision(intent: nat, result: AuthorizationResult, grounds: Grounds) returns (decision: nat)
      requires Valid() && intent < |intents| && NoDecision(Contents(), intent) && NoReceipt(Contents(), intent)
      modifies this`decisions, this`receipts
      ensures Valid()
      ensures decision == |old(decisions)|
      ensures Contents() == WithReceipt(WithDecision(old(Contents()), intent, result, grounds), intent, decision)
    {
      hide TablesOk, DecisionPreimage, EvidencePreimage, ResultText;
      ghost var before := Contents();
      DecisionTables(before, intent, result, grounds);
      decision := |decisions|;
      var payload, evidence := grounds.payload.(result := ResultText(result)), grounds.evidence;
      decisions := decisions + [Decision(intent, result, payload, evidence)];
      ReceiptTables(Contents(), intent, decision);
      receipts := receipts + [Receipt(intent, decision, DecisionPreimage(payload), EvidencePreimage(evidence))];
    }

    method GrantCapability(decision: nat, limits: Limits)
      requires Valid() && decision < |decisions| && Permits(decisions[decision].result) && NoGrant(Contents(), decision)
      modifies this`grants
      ensures Valid() && Contents() == WithGrant(old(Contents()), decision, limits)
    {
      GrantTables(Contents(), decision, limits);
      grants := grants + [Grant(decision, limits)];
    }

    /** A known key is answered from the tables; a new one is recorded, decided, pinned and, if permitted, granted. */
    method CreateIntent(key: Text, asked: Submission, facts: Facts, grounds: Grounds)
      returns (view: View)
      requires Valid()
      modifies this
      ensures Valid()
      ensures view.intent < |intents| && intents[view.intent].key == key
      ensures
        var found := FindKey(old(intents), key, 0);
        && (intents[view.intent].asked.actor == asked.actor <==>
              found.None? || old(intents)[found.value].asked.actor == asked.actor)
        && (intents[view.intent].asked.parameters == asked.parameters <==>
              found.None? || old(intents)[found.value].asked.parameters == asked.parameters)
      ensures
        var found := FindKey(old(intents), key, 0);
        if found.Some? then
          && Contents() == old(Contents()) && view == ViewOf(old(Contents()), found.value, true)
          && (forall d: nat :: view.decision == Some(d) <==> d < |decisions| && decisions[d].intent == view.intent)
          && (forall k: nat :: view.receipt == Some(k) <==> k < |receipts| && receipts[k].intent == view.intent)
        else
          && |intents| == |old(intents)| + 1 && intents[view.intent] == Intent(key, asked, true)
          && |decisions| == |old(decisions)| + 1 && |receipts| == |old(receipts)| + 1
          && view == View(|old(intents)|, Some(|old(decisions)|), Some(|old(receipts)|), false)
          && decisions[|old(decisions)|].result == Authorize(facts).outcome
          && grants == (if Permits(Authorize(facts).outcome)
                        then old(grants) + [Grant(|old(decisions)|, Authorize(facts).limits.value)] else old(grants))
    {
      hide TablesOk, Authorize, DecisionPreimage, EvidencePreimage, ResultText;
      var found := FindKey(intents, key, 0);
      if found.Some? {
        ViewComplete(Contents(), found.value, true);
        view := GetIntent(found.value, true);
        return;
      }
      ghost var before, me := Contents(), Caller(key, asked, Inserting);
      InsertTables(before, me);
      var intent := |intents|;
      intents := intents + [Intent(key, asked, false)];
      AuthorizeFailClosed(facts);
      var verdict := Authorize(facts);
      FreshDecisionUngranted(Contents(), intent, verdict.outcome, grounds);
      SameOtherTables(before, Contents(), intent);
      var decision := PersistDecision(intent, verdict.outcome, grounds);
      if verdict.limits.Some? { GrantCapability(decision, verdict.limits.value); }
      MarkTables(Contents(), intent);
      intents := intents[intent := intents[intent].(decided := true)];
      view := GetIntent(intent, false);
    }
  }
}
