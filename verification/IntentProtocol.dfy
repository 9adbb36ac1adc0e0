/** Creating and authorizing intents, interleaved by many callers (`intent-service.ts`). */
module IntentProtocol {
  import opened Common
  import opened CanonicalJson
  import opened HashPreimages
  import opened CapabilityTypes
  import opened RuleEngine

  // ---- authorization ----

  /** What an authorization is decided from, gathered outside any lock. */
  datatype Facts = Facts(
    expiresAt: int, now: int, actorActive: bool, hasWallet: bool, claimHeld: bool, trustKnown: bool,
    rules: seq<Rule>, request: Request)

  datatype Verdict = Verdict(outcome: AuthorizationResult, reasonCode: string, limits: Option<Limits>)

  /** Still valid means strictly before the expiry. */
  predicate IsExpired(expiresAt: int, now: int) { expiresAt <= now }

  /** Expired as documented: the boundary itself is still valid. */
  predicate IsPast(expiresAt: int, now: int) { expiresAt < now }

  /** The documentation and the code part at the boundary, and only there. */
  lemma ExpiryBoundaryExact(expiresAt: int, now: int)
    ensures (IsExpired(expiresAt, now) <==> IsPast(expiresAt, now)) <==> now != expiresAt
  {
  }

  /** Expiry and actor status come first; missing evidence is held before any rule is read. */
  function Authorize(f: Facts): Verdict {
    if IsExpired(f.expiresAt, f.now) then Verdict(REVIEW, "INTENT_EXPIRED", None)
    else if !f.actorActive then Verdict(BLOCK, "ACTOR_NOT_ACTIVE", None)
    else if !f.hasWallet then Verdict(REVIEW, "EVIDENCE_NOT_FRESH", None)
    else if f.claimHeld || !f.trustKnown then Verdict(REVIEW, "EVIDENCE_NOT_FRESH", None)
    else
      var o := EvaluateRules(f.rules, f.request, f.now);
      Verdict(o.result, o.reasonCode, o.limits)
  }

  function ResultText(r: AuthorizationResult): Text {
    match r
    case ALLOW => Ascii("ALLOW")
    case LIMIT => Ascii("LIMIT")
    case CHALLENGE => Ascii("CHALLENGE")
    case REVIEW => Ascii("REVIEW")
    case BLOCK => Ascii("BLOCK")
  }

  predicate Permits(r: AuthorizationResult) { r == ALLOW || r == LIMIT }

  /** Permission needs every gate open and a rule that grants; exactly then is there something to grant. */
  lemma AuthorizeFailClosed(f: Facts)
    ensures Permits(Authorize(f).outcome) <==>
      f.now < f.expiresAt && f.actorActive && f.hasWallet && !f.claimHeld && f.trustKnown
      && SelectRule(f.rules, f.request).Some? && PermissiveRule(SelectRule(f.rules, f.request).value)
    ensures Permits(Authorize(f).outcome) <==> Authorize(f).limits.Some?
  {
    FailClosed(f.rules, f.request, f.now);
  }

  /** The instant a capability granted by a rule stops passing: never, or so many seconds from now. */
  function Lapses(r: Rule, now: int): Option<int> {
    match r.capabilityTtlSeconds case None => None case Some(seconds) => Some(now + 1000 * seconds)
  }

  /**
   * Every authorization, gate by gate: an expired intent is held, an inactive actor blocked, and one without a wallet,
   * with a held claim or with unknown trust is held. Past the gates the deciding rule's effect is the outcome;
   * no matching rule, or an effect nobody mapped, is held.
   */
  lemma AuthorizeExactly(f: Facts)
    ensures
      var v := Authorize(f);
      if f.expiresAt <= f.now then v == Verdict(REVIEW, "INTENT_EXPIRED", None)
      else if !f.actorActive then v == Verdict(BLOCK, "ACTOR_NOT_ACTIVE", None)
      else if !f.hasWallet || f.claimHeld || !f.trustKnown then v == Verdict(REVIEW, "EVIDENCE_NOT_FRESH", None)
      else if forall r | r in f.rules :: !RuleMatches(r, f.request) then
        v == Verdict(REVIEW, "NO_MATCHING_POLICY_RULE", None)
      else
        forall r | Decisive(f.rules, f.request, r) ::
          match r.effect
          case Unknown(_) => v == Verdict(REVIEW, "UNKNOWN_RULE_EFFECT", None)
          case Known(effect) =>
            v == Verdict(effect, r.reasonCode,
                         if effect == ALLOW || effect == LIMIT
                         then Some(Limits(r.limitAmount, r.limitFrequency, r.limitWindowSeconds, [], Lapses(r, f.now)))
                         else None)
  {
    hide RuleMatches, SelectRule;
    SelectRuleLeast(f.rules, f.request);
    forall r | Decisive(f.rules, f.request, r) ensures SelectRule(f.rules, f.request) == Some(r) {
      DecisiveSelected(f.rules, f.request, r);
    }
  }

  // ---- tables ----

  /** Who asks, and for what. */
  datatype Submission = Submission(actor: nat, parameters: IntentParameters)

  datatype Intent = Intent(key: Text, asked: Submission, decided: bool)

  /** What a decision cites: the fields its digest covers, and the lineage of its evidence. */
  datatype Grounds = Grounds(payload: DecisionPayload, evidence: seq<Text>)

  datatype Decision = Decision(intent: nat, result: AuthorizationResult, payload: DecisionPayload, evidence: seq<Text>)

  function DecisionFor(intent: nat, result: AuthorizationResult, grounds: Grounds): Decision {
    Decision(intent, result, grounds.payload.(result := ResultText(result)), grounds.evidence)
  }

  /** A receipt carries the texts that the digests of its decision and of the evidence were taken over. */
  datatype Receipt = Receipt(intent: nat, decision: nat, pinned: Text, evidencePinned: Text)

  function ReceiptFor(intent: nat, decision: nat, d: Decision): Receipt {
    Receipt(intent, decision, DecisionPreimage(d.payload), EvidencePreimage(d.evidence))
  }

  datatype Grant = Grant(decision: nat, limits: Limits)

  datatype Db = Db(intents: seq<Intent>, decisions: seq<Decision>, receipts: seq<Receipt>, grants: seq<Grant>)

  function FindKey(intents: seq<Intent>, key: Text, from: nat): (r: Option<nat>)
    requires from <= |intents|
    ensures r.Some? ==> from <= r.value < |intents| && intents[r.value].key == key
    ensures r.None? ==> forall i | from <= i < |intents| :: intents[i].key != key
    decreases |intents| - from
  {
    if from == |intents| then None
    else if intents[from].key == key then Some(from)
    else FindKey(intents, key, from + 1)
  }

  /** The newest decision, and the newest receipt, of an intent. */
  function DecisionOf(decisions: seq<Decision>, n: nat, intent: nat): (r: Option<nat>)
    requires n <= |decisions|
    ensures r.Some? ==> r.value < n && decisions[r.value].intent == intent
    ensures r.None? ==> forall k | 0 <= k < n :: decisions[k].intent != intent
  {
    if n == 0 then None
    else if decisions[n - 1].intent == intent then Some(n - 1)
    else DecisionOf(decisions, n - 1, intent)
  }

  function ReceiptOf(receipts: seq<Receipt>, n: nat, intent: nat): (r: Option<nat>)
    requires n <= |receipts|
    ensures r.Some? ==> r.value < n && receipts[r.value].intent == intent
    ensures r.None? ==> forall k | 0 <= k < n :: receipts[k].intent != intent
  {
    if n == 0 then None
    else if receipts[n - 1].intent == intent then Some(n - 1)
    else ReceiptOf(receipts, n - 1, intent)
  }

  datatype View = View(intent: nat, decision: Option<nat>, receipt: Option<nat>, replayed: bool)

  function ViewOf(db: Db, intent: nat, replayed: bool): View {
    var decision := DecisionOf(db.decisions, |db.decisions|, intent);
    View(intent, decision, ReceiptOf(db.receipts, |db.receipts|, intent), replayed)
  }

  // ---- one call ----

  datatype Pc =
    | Start
    | Inserting
    | Lost
    | Authorizing(intent: nat)
    | Decided(intent: nat, decision: nat, limits: Option<Limits>)
    | Receipted(intent: nat, decision: nat, limits: Option<Limits>)
    | Granted(intent: nat, decision: nat)
    | Done(view: View)
    | Failed

  datatype Caller = Caller(key: Text, asked: Submission, pc: Pc)

  datatype World = World(db: Db, callers: seq<Caller>)

  datatype Event =
    | Submit(key: Text, asked: Submission)
    | Look(caller: nat)
    | Insert(caller: nat)
    | LookAgain(caller: nat)
    | Decide(caller: nat, facts: Facts, grounds: Grounds)
    | WriteReceipt(caller: nat)
    | GrantCapability(caller: nat)
    | Finish(caller: nat)
    | Crash(caller: nat)

  function At(w: World, i: nat, db: Db, pc: Pc): World
    requires i < |w.callers|
  {
    World(db, w.callers[i := w.callers[i].(pc := pc)])
  }

  function WithIntent(db: Db, c: Caller): Db { db.(intents := db.intents + [Intent(c.key, c.asked, false)]) }

  function WithDecision(db: Db, intent: nat, result: AuthorizationResult, grounds: Grounds): Db {
    db.(decisions := db.decisions + [DecisionFor(intent, result, grounds)])
  }

  function WithReceipt(db: Db, intent: nat, decision: nat): Db
    requires decision < |db.decisions|
  {
    db.(receipts := db.receipts + [ReceiptFor(intent, decision, db.decisions[decision])])
  }

  function WithGrant(db: Db, decision: nat, limits: Limits): Db {
    db.(grants := db.grants + [Grant(decision, limits)])
  }

  function MarkedDecided(db: Db, intent: nat): Db
    requires intent < |db.intents|
  {
    db.(intents := db.intents[intent := db.intents[intent].(decided := true)])
  }

  predicate PcInRange(db: Db, pc: Pc) {
    match pc
    case Decided(x, d, _) => d < |db.decisions|
    case Granted(x, d) => x < |db.intents|
    case _ => true
  }

  function CallerStep(w: World, e: Event, i: nat): World
    requires i < |w.callers| && PcInRange(w.db, w.callers[i].pc)
  {
    var c, db := w.callers[i], w.db;
    var found := FindKey(db.intents, c.key, 0);
    match e
    case Look(_) =>
      if c.pc != Start then w
      else if found.Some? then At(w, i, db, Done(ViewOf(db, found.value, true))) else At(w, i, db, Inserting)
    case Insert(_) =>
      if c.pc != Inserting then w
      else if found.Some? then At(w, i, db, Lost)
      else At(w, i, WithIntent(db, c), Authorizing(|db.intents|))
    case LookAgain(_) =>
      if c.pc != Lost then w
      else if found.Some? then At(w, i, db, Done(ViewOf(db, found.value, true))) else At(w, i, db, Failed)
    case Decide(_, facts, grounds) =>
      if !c.pc.Authorizing? then w
      else
        var v := Authorize(facts);
        At(w, i, WithDecision(db, c.pc.intent, v.outcome, grounds), Decided(c.pc.intent, |db.decisions|, v.limits))
    case WriteReceipt(_) =>
      if !c.pc.Decided? then w
      else At(w, i, WithReceipt(db, c.pc.intent, c.pc.decision), Receipted(c.pc.intent, c.pc.decision, c.pc.limits))
    case GrantCapability(_) =>
      if !c.pc.Receipted? then w
      else if c.pc.limits.None? then At(w, i, db, Granted(c.pc.intent, c.pc.decision))
      else At(w, i, WithGrant(db, c.pc.decision, c.pc.limits.value), Granted(c.pc.intent, c.pc.decision))
    case Finish(_) =>
      if !c.pc.Granted? then w
      else
        var db' := MarkedDecided(db, c.pc.intent);
        At(w, i, db', Done(ViewOf(db', c.pc.intent, false)))
    case Crash(_) => if c.pc.Done? then w else At(w, i, db, Failed)
    case Submit(_, _) => w
  }

  function Step(w: World, e: Event): World
    requires forall j | 0 <= j < |w.callers| :: PcInRange(w.db, w.callers[j].pc)
  {
    if e.Submit? then w.(callers := w.callers + [Caller(e.key, e.asked, Start)])
    else if e.caller < |w.callers| then CallerStep(w, e, e.caller)
    else w
  }

  // ---- the invariant ----

  ghost predicate UniqueKeys(db: Db) {
    forall i, j | 0 <= i < j < |db.intents| :: db.intents[i].key != db.intents[j].key
  }

  /** At most one decision for each intent, and its payload names its result. */
  ghost predicate DecisionsOk(db: Db) {
    && (forall k | 0 <= k < |db.decisions| ::
          db.decisions[k].intent < |db.intents| && db.decisions[k].payload.result == ResultText(db.decisions[k].result))
    && (forall i, j | 0 <= i < j < |db.decisions| :: db.decisions[i].intent != db.decisions[j].intent)
  }

  predicate ReceiptOk(db: Db, r: Receipt) {
    r.decision < |db.decisions| && db.decisions[r.decision].intent == r.intent
    && r == ReceiptFor(r.intent, r.decision, db.decisions[r.decision])
  }

  /** At most one receipt for each intent, pinning that intent's decision. */
  ghost predicate ReceiptsOk(db: Db) {
    && (forall k | 0 <= k < |db.receipts| :: ReceiptOk(db, db.receipts[k]))
    && (forall i, j | 0 <= i < j < |db.receipts| :: db.receipts[i].intent != db.receipts[j].intent)
  }

  /** At most one capability cites a decision, and only one that permits. */
  ghost predicate GrantsOk(db: Db) {
    && (forall k | 0 <= k < |db.grants| ::
          db.grants[k].decision < |db.decisions| && Permits(db.decisions[db.grants[k].decision].result))
    && (forall i, j | 0 <= i < j < |db.grants| :: db.grants[i].decision != db.grants[j].decision)
  }

  predicate NoDecision(db: Db, x: nat) { forall k | 0 <= k < |db.decisions| :: db.decisions[k].intent != x }

  predicate NoReceipt(db: Db, x: nat) { forall k | 0 <= k < |db.receipts| :: db.receipts[k].intent != x }

  predicate NoGrant(db: Db, d: nat) { forall k | 0 <= k < |db.grants| :: db.grants[k].decision != d }

  /** The intent a caller inserted and is still working on. */
  function Owned(pc: Pc): Option<nat> {
    match pc
    case Authorizing(x) => Some(x)
    case Decided(x, _, _) => Some(x)
    case Receipted(x, _, _) => Some(x)
    case Granted(x, _) => Some(x)
    case _ => None
  }

  predicate Keyed(db: Db, c: Caller, x: nat) { x < |db.intents| && db.intents[x].key == c.key }

  /** The row carries the caller's own request. */
  predicate Mine(db: Db, c: Caller, x: nat) { Keyed(db, c, x) && db.intents[x].asked == c.asked }

  predicate DecidesFor(db: Db, d: nat, x: nat, limits: Option<Limits>) {
    d < |db.decisions| && db.decisions[d].intent == x && (limits.Some? <==> Permits(db.decisions[d].result))
  }

  predicate CallerOk(db: Db, c: Caller) {
    match c.pc
    case Authorizing(x) => Mine(db, c, x) && NoDecision(db, x) && NoReceipt(db, x)
    case Decided(x, d, limits) => Mine(db, c, x) && DecidesFor(db, d, x, limits) && NoReceipt(db, x) && NoGrant(db, d)
    case Receipted(x, d, limits) =>
      Mine(db, c, x) && DecidesFor(db, d, x, limits) && !NoReceipt(db, x) && NoGrant(db, d)
    case Granted(x, d) =>
      Mine(db, c, x) && d < |db.decisions| && db.decisions[d].intent == x && !NoReceipt(db, x)
      && (NoGrant(db, d) <==> !Permits(db.decisions[d].result))
    case Done(v) => Keyed(db, c, v.intent) && (!v.replayed ==> Mine(db, c, v.intent)) && ViewTrue(db, v)
    case _ => true
  }

  /** What a finished call reports is in the tables; a call that did the work reports all of it. */
  predicate ViewTrue(db: Db, v: View) {
    && (v.decision.Some? ==> v.decision.value < |db.decisions| && db.decisions[v.decision.value].intent == v.intent)
    && (v.receipt.Some? ==> v.receipt.value < |db.receipts| && db.receipts[v.receipt.value].intent == v.intent)
    && v.intent < |db.intents|
    && (!v.replayed ==>
          v.decision.Some? && v.receipt.Some? && db.intents[v.intent].decided
          && (NoGrant(db, v.decision.value) <==> !Permits(db.decisions[v.decision.value].result)))
  }

  predicate Rivals(w: World, i: nat, j: nat)
    requires i < |w.callers| && j < |w.callers|
  {
    Owned(w.callers[i].pc).Some? && Owned(w.callers[i].pc) == Owned(w.callers[j].pc)
  }

  ghost predicate TablesOk(db: Db) { UniqueKeys(db) && DecisionsOk(db) && ReceiptsOk(db) && GrantsOk(db) }

  ghost predicate WorldOk(w: World) {
    && TablesOk(w.db)
    && (forall i | 0 <= i < |w.callers| :: CallerOk(w.db, w.callers[i]))
    && (forall i, j | 0 <= i < |w.callers| && 0 <= j < |w.callers| && i != j :: !Rivals(w, i, j))
  }

  // ---- each write keeps it ----

  lemma AfterInsert(db: Db, c: Caller, other: Caller)
    requires TablesOk(db) && CallerOk(db, other)
    ensures CallerOk(WithIntent(db, c), other)
  {
    hide TablesOk;
  }

  lemma InsertTables(db: Db, c: Caller)
    requires TablesOk(db) && FindKey(db.intents, c.key, 0).None?
    ensures TablesOk(WithIntent(db, c))
    ensures CallerOk(WithIntent(db, c), c.(pc := Authorizing(|db.intents|)))
  {
    var db', x := WithIntent(db, c), |db.intents|;
    assert NoDecision(db', x);
    forall k | 0 <= k < |db.receipts| ensures ReceiptOk(db', db.receipts[k]) && db.receipts[k].intent != x {
      assert ReceiptOk(db, db.receipts[k]);
    }
  }

  lemma AfterDecision(db: Db, x: nat, result: AuthorizationResult, grounds: Grounds, other: Caller)
    requires CallerOk(db, other) && Owned(other.pc) != Some(x)
    ensures CallerOk(WithDecision(db, x, result, grounds), other)
  {
  }

  lemma DecisionTables(db: Db, x: nat, result: AuthorizationResult, grounds: Grounds)
    requires TablesOk(db) && x < |db.intents| && NoDecision(db, x)
    ensures TablesOk(WithDecision(db, x, result, grounds))
  {
    hide ResultText, DecisionPreimage, EvidencePreimage;
    var db' := WithDecision(db, x, result, grounds);
    forall k | 0 <= k < |db.receipts| ensures ReceiptOk(db', db.receipts[k]) {
      assert ReceiptOk(db, db.receipts[k]);
    }
  }

  lemma AfterReceipt(db: Db, x: nat, d: nat, other: Caller)
    requires d < |db.decisions| && CallerOk(db, other) && Owned(other.pc) != Some(x)
    ensures CallerOk(WithReceipt(db, x, d), other)
  {
    hide DecisionPreimage, EvidencePreimage;
    var db' := WithReceipt(db, x, d);
    forall y: nat | NoReceipt(db, y) && y != x ensures NoReceipt(db', y) {}
    forall y: nat | !NoReceipt(db, y) ensures !NoReceipt(db', y) {
      var k :| 0 <= k < |db.receipts| && db.receipts[k].intent == y;
      assert db'.receipts[k].intent == y;
    }
  }

  lemma ReceiptTables(db: Db, x: nat, d: nat)
    requires TablesOk(db) && d < |db.decisions| && db.decisions[d].intent == x && NoReceipt(db, x)
    ensures TablesOk(WithReceipt(db, x, d)) && !NoReceipt(WithReceipt(db, x, d), x)
  {
    hide DecisionPreimage, EvidencePreimage;
    var db', r := WithReceipt(db, x, d), ReceiptFor(x, d, db.decisions[d]);
    assert db'.receipts[|db.receipts|] == r;
    forall k | 0 <= k < |db'.receipts| ensures ReceiptOk(db', db'.receipts[k]) {
      if k < |db.receipts| { assert ReceiptOk(db, db.receipts[k]); }
    }
  }

  lemma GrantsAfter(db: Db, d: nat, limits: Limits, e: nat)
    ensures NoGrant(WithGrant(db, d, limits), e) <==> NoGrant(db, e) && e != d
  {
    var db' := WithGrant(db, d, limits);
    assert db'.grants[|db.grants|].decision == d;
    if !NoGrant(db, e) {
      var k :| 0 <= k < |db.grants| && db.grants[k].decision == e;
      assert db'.grants[k].decision == e;
    }
  }

  lemma AfterGrant(db: Db, x: nat, d: nat, limits: Limits, other: Caller)
    requires d < |db.decisions| && db.decisions[d].intent == x && Permits(db.decisions[d].result) && NoGrant(db, d)
    requires CallerOk(db, other) && Owned(other.pc) != Some(x)
    ensures CallerOk(WithGrant(db, d, limits), other)
  {
    hide NoGrant, NoReceipt, NoDecision;
    var db' := WithGrant(db, d, limits);
    forall y: nat ensures (NoDecision(db', y) <==> NoDecision(db, y)) && (NoReceipt(db', y) <==> NoReceipt(db, y)) {
      SameOtherTables(db, db', y);
    }
    forall e: nat ensures NoGrant(db', e) <==> NoGrant(db, e) && e != d { GrantsAfter(db, d, limits, e); }
  }

  lemma SameOtherTables(db: Db, db': Db, y: nat)
    requires db'.decisions == db.decisions && db'.receipts == db.receipts
    ensures (NoDecision(db', y) <==> NoDecision(db, y)) && (NoReceipt(db', y) <==> NoReceipt(db, y))
  {
  }

  lemma GrantTables(db: Db, d: nat, limits: Limits)
    requires TablesOk(db) && d < |db.decisions| && Permits(db.decisions[d].result) && NoGrant(db, d)
    ensures TablesOk(WithGrant(db, d, limits))
  {
    var db' := WithGrant(db, d, limits);
    forall k | 0 <= k < |db'.receipts| ensures ReceiptOk(db', db'.receipts[k]) {
      assert ReceiptOk(db, db.receipts[k]);
    }
  }

  lemma AfterMark(db: Db, x: nat, other: Caller)
    requires x < |db.intents| && CallerOk(db, other)
    ensures CallerOk(MarkedDecided(db, x), other)
  {
  }

  lemma MarkTables(db: Db, x: nat)
    requires TablesOk(db) && x < |db.intents|
    ensures TablesOk(MarkedDecided(db, x))
  {
    var db' := MarkedDecided(db, x);
    forall k | 0 <= k < |db'.receipts| ensures ReceiptOk(db', db'.receipts[k]) {
      assert ReceiptOk(db, db.receipts[k]);
    }
  }

  // ---- each step keeps it ----

  /** Caller `i` moved on with what it owned; the rest stand as they were. */
  lemma MovedOk(w: World, i: nat, db': Db, pc: Pc)
    requires WorldOk(w) && i < |w.callers| && TablesOk(db')
    requires forall j | 0 <= j < |w.callers| && j != i :: CallerOk(db', w.callers[j])
    requires CallerOk(db', w.callers[i].(pc := pc))
    requires Owned(pc).None? || Owned(pc) == Owned(w.callers[i].pc) || Owned(pc) == Some(|w.db.intents|)
    ensures WorldOk(At(w, i, db', pc))
  {
    hide TablesOk;
    var w' := At(w, i, db', pc);
    forall a, b | 0 <= a < |w'.callers| && 0 <= b < |w'.callers| && a != b ensures !Rivals(w', a, b) {
      assert !Rivals(w, a, b);
      assert CallerOk(w.db, w.callers[a]) && CallerOk(w.db, w.callers[b]);
    }
  }

  /** Somebody else never owns what caller `i` owns. */
  lemma NotRival(w: World, i: nat, j: nat)
    requires WorldOk(w) && i < |w.callers| && j < |w.callers| && i != j && Owned(w.callers[i].pc).Some?
    ensures Owned(w.callers[j].pc) != Owned(w.callers[i].pc)
  {
    assert !Rivals(w, i, j);
  }

  lemma ViewIsTrue(db: Db, x: nat)
    requires x < |db.intents|
    ensures ViewTrue(db, ViewOf(db, x, true))
  {
  }

  lemma LookStep(w: World, i: nat, pc: Pc)
    requires WorldOk(w) && i < |w.callers|
    requires Owned(pc).None? && (pc.Done? ==> CallerOk(w.db, w.callers[i].(pc := pc)))
    ensures WorldOk(At(w, i, w.db, pc))
  {
    MovedOk(w, i, w.db, pc);
  }

  lemma InsertStep(w: World, i: nat)
    requires WorldOk(w) && i < |w.callers| && FindKey(w.db.intents, w.callers[i].key, 0).None?
    ensures WorldOk(At(w, i, WithIntent(w.db, w.callers[i]), Authorizing(|w.db.intents|)))
  {
    hide TablesOk, CallerOk;
    var c := w.callers[i];
    InsertTables(w.db, c);
    forall j | 0 <= j < |w.callers| && j != i ensures CallerOk(WithIntent(w.db, c), w.callers[j]) {
      AfterInsert(w.db, c, w.callers[j]);
    }
    MovedOk(w, i, WithIntent(w.db, c), Authorizing(|w.db.intents|));
  }

  lemma DecideStep(w: World, i: nat, facts: Facts, grounds: Grounds)
    requires WorldOk(w) && i < |w.callers| && w.callers[i].pc.Authorizing?
    ensures
      var x, v := w.callers[i].pc.intent, Authorize(facts);
      WorldOk(At(w, i, WithDecision(w.db, x, v.outcome, grounds), Decided(x, |w.db.decisions|, v.limits)))
  {
    hide TablesOk, Authorize;
    AuthorizeFailClosed(facts);
    var x, v := w.callers[i].pc.intent, Authorize(facts);
    var db' := WithDecision(w.db, x, v.outcome, grounds);
    assert CallerOk(w.db, w.callers[i]);
    DecisionTables(w.db, x, v.outcome, grounds);
    forall j | 0 <= j < |w.callers| && j != i ensures CallerOk(db', w.callers[j]) {
      NotRival(w, i, j);
      AfterDecision(w.db, x, v.outcome, grounds, w.callers[j]);
    }
    FreshDecisionUngranted(w.db, x, v.outcome, grounds);
    MovedOk(w, i, db', Decided(x, |w.db.decisions|, v.limits));
  }

  lemma FreshDecisionUngranted(db: Db, x: nat, result: AuthorizationResult, grounds: Grounds)
    requires TablesOk(db)
    ensures NoGrant(WithDecision(db, x, result, grounds), |db.decisions|)
  {
  }

  lemma ReceiptStep(w: World, i: nat)
    requires WorldOk(w) && i < |w.callers| && w.callers[i].pc.Decided?
    requires w.callers[i].pc.decision < |w.db.decisions|
    ensures
      var Decided(x, d, limits) := w.callers[i].pc;
      WorldOk(At(w, i, WithReceipt(w.db, x, d), Receipted(x, d, limits)))
  {
    hide TablesOk, NoReceipt;
    var Decided(x, d, limits) := w.callers[i].pc;
    var db' := WithReceipt(w.db, x, d);
    assert CallerOk(w.db, w.callers[i]);
    ReceiptTables(w.db, x, d);
    forall j | 0 <= j < |w.callers| && j != i ensures CallerOk(db', w.callers[j]) {
      NotRival(w, i, j);
      AfterReceipt(w.db, x, d, w.callers[j]);
    }
    MovedOk(w, i, db', Receipted(x, d, limits));
  }

  lemma GrantStep(w: World, i: nat)
    requires WorldOk(w) && i < |w.callers| && w.callers[i].pc.Receipted?
    ensures
      var Receipted(x, d, limits) := w.callers[i].pc;
      WorldOk(At(w, i, if limits.Some? then WithGrant(w.db, d, limits.value) else w.db, Granted(x, d)))
  {
    hide TablesOk, NoReceipt, NoGrant;
    var Receipted(x, d, limits) := w.callers[i].pc;
    assert CallerOk(w.db, w.callers[i]);
    if limits.Some? {
      var db' := WithGrant(w.db, d, limits.value);
      GrantTables(w.db, d, limits.value);
      GrantsAfter(w.db, d, limits.value, d);
      SameOtherTables(w.db, db', x);
      forall j | 0 <= j < |w.callers| && j != i ensures CallerOk(db', w.callers[j]) {
        NotRival(w, i, j);
        AfterGrant(w.db, x, d, limits.value, w.callers[j]);
      }
      MovedOk(w, i, db', Granted(x, d));
    } else {
      MovedOk(w, i, w.db, Granted(x, d));
    }
  }

  lemma FinishStep(w: World, i: nat)
    requires WorldOk(w) && i < |w.callers| && w.callers[i].pc.Granted? && w.callers[i].pc.intent < |w.db.intents|
    ensures
      var db' := MarkedDecided(w.db, w.callers[i].pc.intent);
      WorldOk(At(w, i, db', Done(ViewOf(db', w.callers[i].pc.intent, false))))
  {
    hide TablesOk;
    var x, d := w.callers[i].pc.intent, w.callers[i].pc.decision;
    var db' := MarkedDecided(w.db, x);
    assert CallerOk(w.db, w.callers[i]);
    MarkTables(w.db, x);
    forall j | 0 <= j < |w.callers| && j != i ensures CallerOk(db', w.callers[j]) { AfterMark(w.db, x, w.callers[j]); }
    FinishedView(w.db, x, d);
    MovedOk(w, i, db', Done(ViewOf(db', x, false)));
  }

  lemma FinishedView(db: Db, x: nat, d: nat)
    requires TablesOk(db) && x < |db.intents| && d < |db.decisions| && db.decisions[d].intent == x
    requires !NoReceipt(db, x) && (NoGrant(db, d) <==> !Permits(db.decisions[d].result))
    ensures ViewTrue(MarkedDecided(db, x), ViewOf(MarkedDecided(db, x), x, false))
  {
    var db' := MarkedDecided(db, x);
    var v := ViewOf(db', x, false);
    assert v.decision.Some? && v.receipt.Some?;
    OneDecision(db, d, v.decision.value);
  }

  /** Two decisions on one intent are the same decision. */
  lemma OneDecision(db: Db, d: nat, e: nat)
    requires TablesOk(db) && d < |db.decisions| && e < |db.decisions|
    requires db.decisions[d].intent == db.decisions[e].intent
    ensures d == e
  {
  }

  lemma InRange(w: World)
    requires WorldOk(w)
    ensures forall j | 0 <= j < |w.callers| :: PcInRange(w.db, w.callers[j].pc)
  {
    forall j | 0 <= j < |w.callers| ensures PcInRange(w.db, w.callers[j].pc) { assert CallerOk(w.db, w.callers[j]); }
  }

  lemma FoundView(w: World, i: nat, x: nat)
    requires WorldOk(w) && i < |w.callers| && x < |w.db.intents| && w.db.intents[x].key == w.callers[i].key
    ensures WorldOk(At(w, i, w.db, Done(ViewOf(w.db, x, true))))
  {
    ViewIsTrue(w.db, x);
    LookStep(w, i, Done(ViewOf(w.db, x, true)));
  }

  lemma CallerStepOk(w: World, e: Event, i: nat)
    requires WorldOk(w) && i < |w.callers| && PcInRange(w.db, w.callers[i].pc)
    ensures WorldOk(CallerStep(w, e, i))
  {
    hide WorldOk, WithIntent, WithDecision, WithReceipt, WithGrant, MarkedDecided, Authorize, ViewOf, At;
    var c, found := w.callers[i], FindKey(w.db.intents, w.callers[i].key, 0);
    match e
    case Look(_) => if found.Some? { FoundView(w, i, found.value); } else { LookStep(w, i, Inserting); }
    case Insert(_) => if found.None? { InsertStep(w, i); } else { LookStep(w, i, Lost); }
    case LookAgain(_) => if found.Some? { FoundView(w, i, found.value); } else { LookStep(w, i, Failed); }
    case Decide(_, facts, grounds) => if c.pc.Authorizing? { DecideStep(w, i, facts, grounds); }
    case WriteReceipt(_) => if c.pc.Decided? { ReceiptStep(w, i); }
    case GrantCapability(_) => if c.pc.Receipted? { GrantStep(w, i); }
    case Finish(_) => if c.pc.Granted? { FinishStep(w, i); }
    case Crash(_) => LookStep(w, i, Failed);
    case Submit(_, _) =>
  }

  lemma StepOk(w: World, e: Event)
    requires WorldOk(w)
    ensures (InRange(w); WorldOk(Step(w, e)))
  {
    InRange(w);
    hide WorldOk, CallerStep;
    if e.Submit? {
      SubmitStep(w, Caller(e.key, e.asked, Start));
    } else if e.caller < |w.callers| {
      CallerStepOk(w, e, e.caller);
    }
  }

  lemma SubmitStep(w: World, c: Caller)
    requires WorldOk(w) && c.pc == Start
    ensures WorldOk(w.(callers := w.callers + [c]))
  {
    hide TablesOk;
    var w' := w.(callers := w.callers + [c]);
    forall a, b | 0 <= a < |w'.callers| && 0 <= b < |w'.callers| && a != b ensures !Rivals(w', a, b) {
      if a < |w.callers| && b < |w.callers| { assert !Rivals(w, a, b); }
    }
  }

  function EmptyWorld(): World { World(Db([], [], [], []), []) }

  ghost function Run(events: seq<Event>): (w: World)
    ensures WorldOk(w)
  {
    if events == [] then EmptyWorld()
    else
      var before := Run(events[..|events| - 1]);
      StepOk(before, events[|events| - 1]);
      InRange(before);
      Step(before, events[|events| - 1])
  }

  // ---- main results ----

  /** Calls that completed with one key returned one intent, and never two decisions or receipts of it. */
  lemma OneIntentPerKey(events: seq<Event>, i: nat, j: nat)
    requires
      var w := Run(events);
      && i < |w.callers| && j < |w.callers| && w.callers[i].pc.Done? && w.callers[j].pc.Done?
      && w.callers[i].key == w.callers[j].key
    ensures
      var v, u := Run(events).callers[i].pc.view, Run(events).callers[j].pc.view;
      && v.intent == u.intent
      && (v.decision.Some? && u.decision.Some? ==> v.decision == u.decision)
      && (v.receipt.Some? && u.receipt.Some? ==> v.receipt == u.receipt)
  {
    hide Run, DecisionPreimage, EvidencePreimage;
    var w := Run(events);
    assert WorldOk(w);
    assert CallerOk(w.db, w.callers[i]) && CallerOk(w.db, w.callers[j]);
  }

  /** At any point of any run: a decision, a receipt and a capability at most once each, and only for a permission. */
  lemma WrittenOnce(events: seq<Event>)
    ensures
      var db := Run(events).db;
      && (forall i, j | 0 <= i < j < |db.intents| :: db.intents[i].key != db.intents[j].key)
      && (forall i, j | 0 <= i < j < |db.decisions| :: db.decisions[i].intent != db.decisions[j].intent)
      && (forall i, j | 0 <= i < j < |db.receipts| :: db.receipts[i].intent != db.receipts[j].intent)
      && (forall i, j | 0 <= i < j < |db.grants| :: db.grants[i].decision != db.grants[j].decision)
      && (forall k | 0 <= k < |db.grants| ::
            db.grants[k].decision < |db.decisions| && Permits(db.decisions[db.grants[k].decision].result))
  {
    hide Run;
    assert WorldOk(Run(events));
  }

  /** A call that did the work leaves a capability exactly when its decision permits. */
  lemma GrantedExactlyWhenPermitted(events: seq<Event>, i: nat)
    requires
      var w := Run(events);
      i < |w.callers| && w.callers[i].pc.Done? && !w.callers[i].pc.view.replayed
    ensures
      var db, v := Run(events).db, Run(events).callers[i].pc.view;
      && v.decision.Some? && v.decision.value < |db.decisions| && v.receipt.Some?
      && ((exists k :: 0 <= k < |db.grants| && db.grants[k].decision == v.decision.value)
          <==> Permits(db.decisions[v.decision.value].result))
  {
    hide Run;
    var w := Run(events);
    assert CallerOk(w.db, w.callers[i]);
  }

  /** Editing a stored decision's payload, or the evidence it names, no longer matches what its receipt pinned. */
  lemma TamperEvident(events: seq<Event>, k: nat, edited: DecisionPayload, ids: seq<Text>)
    requires k < |Run(events).db.receipts| && Run(events).db.receipts[k].decision < |Run(events).db.decisions|
    requires
      var stored := Run(events).db.decisions[Run(events).db.receipts[k].decision].payload;
      NumberToken(stored.riskScore) && NumberToken(edited.riskScore)
    ensures
      var r := Run(events).db.receipts[k];
      var stored := Run(events).db.decisions[r.decision];
      && (DecisionPreimage(edited) == r.pinned <==> edited == stored.payload)
      && (EvidencePreimage(ids) == r.evidencePinned <==> multiset(ids) == multiset(stored.evidence))
  {
    hide Run, DecisionPreimage, EvidencePreimage, NumberToken;
    var db := Run(events).db;
    assert WorldOk(Run(events));
    assert ReceiptOk(db, db.receipts[k]);
    DecisionPreimageFaithful(edited, db.decisions[db.receipts[k].decision].payload);
    EvidencePreimageFaithful(ids, db.decisions[db.receipts[k].decision].evidence);
  }

  /** A view names the one decision and the one receipt there are, and none only when there are none. */
  lemma ViewComplete(db: Db, x: nat, replayed: bool)
    requires TablesOk(db)
    ensures
      var v := ViewOf(db, x, replayed);
      && v.intent == x && v.replayed == replayed
      && (forall d: nat :: v.decision == Some(d) <==> d < |db.decisions| && db.decisions[d].intent == x)
      && (forall k: nat :: v.receipt == Some(k) <==> k < |db.receipts| && db.receipts[k].intent == x)
  {
    hide TablesOk;
    var v := ViewOf(db, x, replayed);
    forall d: nat | d < |db.decisions| && db.decisions[d].intent == x ensures v.decision == Some(d) {
      OneDecision(db, d, v.decision.value);
    }
    forall k: nat | k < |db.receipts| && db.receipts[k].intent == x ensures v.receipt == Some(k) {
      OneReceipt(db, k, v.receipt.value);
    }
  }

  /** Two receipts of one intent are the same receipt. */
  lemma OneReceipt(db: Db, j: nat, k: nat)
    requires TablesOk(db) && j < |db.receipts| && k < |db.receipts|
    requires db.receipts[j].intent == db.receipts[k].intent
    ensures j == k
  {
    hide ReceiptOk;
  }

  /** In every run a decision's payload names its result, by the result's own name. */
  lemma PayloadsNameResults(events: seq<Event>, d: nat)
    requires d < |Run(events).db.decisions|
    ensures
      var row := Run(events).db.decisions[d];
      row.payload.result == Ascii(match row.result
                                  case ALLOW => "ALLOW"
                                  case LIMIT => "LIMIT"
                                  case CHALLENGE => "CHALLENGE"
                                  case REVIEW => "REVIEW"
                                  case BLOCK => "BLOCK")
  {
    hide Run, Ascii, ReceiptsOk, GrantsOk;
    assert WorldOk(Run(events));
  }

  // ---- turns, and a call that nobody disturbs ----

  /** The stage a caller is at when an event is its turn. */
  predicate InTurn(pc: Pc, e: Event) {
    match e
    case Look(_) => pc == Start
    case Insert(_) => pc == Inserting
    case LookAgain(_) => pc == Lost
    case Decide(_, _, _) => pc.Authorizing?
    case WriteReceipt(_) => pc.Decided?
    case GrantCapability(_) => pc.Receipted?
    case Finish(_) => pc.Granted?
    case Crash(_) => !pc.Done?
    case Submit(_, _) => false
  }

  /** Out of turn nothing happens, to the tables or to anyone; in turn only the caller whose turn it is moves. */
  lemma TurnsExact(w: World, e: Event)
    requires !e.Submit? && forall j | 0 <= j < |w.callers| :: PcInRange(w.db, w.callers[j].pc)
    ensures
      var t := Step(w, e);
      && |t.callers| == |w.callers|
      && (forall j | 0 <= j < |w.callers| && j != e.caller :: t.callers[j] == w.callers[j])
      && (e.caller < |w.callers| ==> (t.callers[e.caller].pc != w.callers[e.caller].pc <==>
            InTurn(w.callers[e.caller].pc, e) && !(e.Crash? && w.callers[e.caller].pc == Failed)))
      && (e.caller < |w.callers| ==> t.callers[e.caller] == w.callers[e.caller].(pc := t.callers[e.caller].pc))
      && (e.caller >= |w.callers| || !InTurn(w.callers[e.caller].pc, e) ==> t == w)
  {
    hide WithIntent, WithDecision, WithReceipt, WithGrant, MarkedDecided, Authorize, ViewOf;
    if e.caller < |w.callers| && !InTurn(w.callers[e.caller].pc, e) { SameWorld(w, e.caller); }
  }

  /** A finished call keeps its answer for the rest of the run. */
  lemma {:induction false} FinishedForGood(events: seq<Event>, k: nat, i: nat)
    requires k <= |events| && i < |Run(events[..k]).callers| && Run(events[..k]).callers[i].pc.Done?
    ensures i < |Run(events).callers| && Run(events).callers[i] == Run(events[..k]).callers[i]
  {
    hide WorldOk, CallerStep;
    if k == |events| {
      assert events[..k] == events;
    } else {
      var init, e := events[..|events| - 1], events[|events| - 1];
      assert init[..k] == events[..k];
      FinishedForGood(init, k, i);
      InRange(Run(init));
      if !e.Submit? { TurnsExact(Run(init), e); }
    }
  }

  lemma RunStep(events: seq<Event>, e: Event)
    ensures (InRange(Run(events)); Run(events + [e]) == Step(Run(events), e))
  {
    InRange(Run(events));
    assert (events + [e])[..|events|] == events;
  }

  /** The caller that lost the race finds the winner's row, at whatever point of whatever run. */
  lemma LoserFinds(events: seq<Event>, i: nat)
    requires i < |Run(events).callers| && Run(events).callers[i].pc == Lost
    ensures
      var w, t := Run(events), Run(events + [LookAgain(i)]);
      && i < |t.callers| && t.callers[i].pc.Done? && t.callers[i].pc.view.replayed
      && t.callers[i].pc.view.intent < |w.db.intents|
      && w.db.intents[t.callers[i].pc.view.intent].key == w.callers[i].key
  {
    hide WorldOk;
    LostFound(events, i);
    InRange(Run(events));
    RunStep(events, LookAgain(i));
  }

  /** Whoever is about to insert either authorizes its own new row or is answered with the winner's. */
  lemma RaceResolved(events: seq<Event>, i: nat)
    requires i < |Run(events).callers| && Run(events).callers[i].pc == Inserting
    ensures
      var w, t := Run(events), Run(events + [Insert(i)] + [LookAgain(i)]);
      var found := FindKey(w.db.intents, w.callers[i].key, 0);
      && i < |t.callers|
      && if found.Some? then t.db == w.db && t.callers[i].pc == Done(ViewOf(w.db, found.value, true))
         else t.db.intents == w.db.intents + [Intent(w.callers[i].key, w.callers[i].asked, false)]
              && t.callers[i].pc == Authorizing(|w.db.intents|)
  {
    hide WorldOk, Run, ViewOf;
    var inserted := events + [Insert(i)];
    RunStep(events, Insert(i));
    RunStep(inserted, LookAgain(i));
  }

  lemma {:induction false} LostFound(events: seq<Event>, i: nat)
    requires i < |Run(events).callers| && Run(events).callers[i].pc == Lost
    ensures FindKey(Run(events).db.intents, Run(events).callers[i].key, 0).Some?
  {
    hide WorldOk, ViewOf, Authorize, WithDecision, WithReceipt, WithGrant;
    if events != [] {
      var init, e := events[..|events| - 1], events[|events| - 1];
      var before := Run(init);
      StepRows(before, e);
      if i < |before.callers| && before.callers[i].pc == Lost {
        LostFound(init, i);
        KeyRemains(before, Run(events), e, before.callers[i].key);
      }
    }
  }

  lemma KeyRemains(a: World, b: World, e: Event, key: Text)
    requires RowsKept(a, b, e) && FindKey(a.db.intents, key, 0).Some?
    ensures FindKey(b.db.intents, key, 0).Some?
  {
    var x := FindKey(a.db.intents, key, 0).value;
    assert b.db.intents[x].key == key;
  }

  /** A call with a new key, step after step and undisturbed: recorded, decided, pinned, granted, and answered. */
  lemma UndisturbedCall(events: seq<Event>, key: Text, asked: Submission, facts: Facts, grounds: Grounds)
    requires FindKey(Run(events).db.intents, key, 0).None?
    ensures
      var i, x, db := |Run(events).callers|, |Run(events).db.intents|, Run(events).db;
      var t := Run(events + [Submit(key, asked)] + [Look(i)] + [Insert(i)] + [Decide(i, facts, grounds)]
                   + [WriteReceipt(i)] + [GrantCapability(i)] + [Finish(i)]);
      && i < |t.callers| && t.callers[i].pc.Done? && !t.callers[i].pc.view.replayed
      && t.callers[i].pc.view.intent == x
      && t.db.intents == db.intents + [Intent(key, asked, true)]
      && |t.db.decisions| == |db.decisions| + 1
      && t.db.decisions[|db.decisions|].intent == x
      && t.db.decisions[|db.decisions|].result == Authorize(facts).outcome
      && |t.db.receipts| == |db.receipts| + 1 && t.db.receipts[|db.receipts|].intent == x
      && (Permits(Authorize(facts).outcome) ==>
            Authorize(facts).limits.Some?
            && t.db.grants == db.grants + [Grant(|db.decisions|, Authorize(facts).limits.value)])
      && (!Permits(Authorize(facts).outcome) ==> t.db.grants == db.grants)
  {
    hide WorldOk, Run, Authorize, DecisionPreimage, EvidencePreimage, ResultText, DecisionOf, ReceiptOf;
    AuthorizeFailClosed(facts);
    var i := |Run(events).callers|;
    var e1 := events + [Submit(key, asked)];
    RunStep(events, Submit(key, asked));
    var e2 := e1 + [Look(i)];
    RunStep(e1, Look(i));
    var e3 := e2 + [Insert(i)];
    RunStep(e2, Insert(i));
    var e4 := e3 + [Decide(i, facts, grounds)];
    RunStep(e3, Decide(i, facts, grounds));
    var e5 := e4 + [WriteReceipt(i)];
    RunStep(e4, WriteReceipt(i));
    var e6 := e5 + [GrantCapability(i)];
    RunStep(e5, GrantCapability(i));
    RunStep(e6, Finish(i));
  }

  // ---- what a decision and its capability rest on ----

  /** The decision `d` was taken at step `j`, on the facts and the grounds of that step. */
  ghost predicate TakenAt(events: seq<Event>, j: nat, d: nat, row: Decision, limits: Option<Limits>) {
    && j < |events| && events[j].Decide? && |Run(events[..j]).db.decisions| == d
    && row.result == Authorize(events[j].facts).outcome && limits == Authorize(events[j].facts).limits
    && row.payload == events[j].grounds.payload.(result := ResultText(row.result))
    && row.evidence == events[j].grounds.evidence
  }

  ghost predicate Taken(events: seq<Event>, d: nat, row: Decision, limits: Option<Limits>) {
    exists j: nat :: TakenAt(events, j, d, row, limits)
  }

  ghost predicate DecisionTraced(events: seq<Event>, db: Db, d: nat) {
    d < |db.decisions| ==> exists limits :: Taken(events, d, db.decisions[d], limits)
  }

  ghost predicate LimitsTraced(events: seq<Event>, db: Db, d: nat, limits: Option<Limits>) {
    d < |db.decisions| && Taken(events, d, db.decisions[d], limits)
  }

  ghost predicate PendingTraced(events: seq<Event>, db: Db, pc: Pc) {
    match pc
    case Decided(x, d, limits) => LimitsTraced(events, db, d, limits)
    case Receipted(x, d, limits) => LimitsTraced(events, db, d, limits)
    case _ => true
  }

  /** Every decision was taken at some step, and what is granted or about to be is what that step allowed. */
  ghost predicate Traced(events: seq<Event>, w: World) {
    && (forall d: nat :: DecisionTraced(events, w.db, d))
    && (forall k | 0 <= k < |w.db.grants| ::
          LimitsTraced(events, w.db, w.db.grants[k].decision, Some(w.db.grants[k].limits)))
    && (forall i | 0 <= i < |w.callers| :: PendingTraced(events, w.db, w.callers[i].pc))
  }

  lemma TakenLater(events: seq<Event>, e: Event, d: nat, row: Decision, limits: Option<Limits>)
    requires Taken(events, d, row, limits)
    ensures Taken(events + [e], d, row, limits)
  {
    hide Run, Authorize, ResultText;
    var j: nat :| TakenAt(events, j, d, row, limits);
    assert (events + [e])[..j] == events[..j];
    assert TakenAt(events + [e], j, d, row, limits);
  }

  ghost predicate DecisionsExtend(db: Db, db': Db) {
    |db.decisions| <= |db'.decisions| && forall d | 0 <= d < |db.decisions| :: db'.decisions[d] == db.decisions[d]
  }

  lemma LimitsLater(events: seq<Event>, e: Event, db: Db, db': Db, d: nat, limits: Option<Limits>)
    requires LimitsTraced(events, db, d, limits) && DecisionsExtend(db, db')
    ensures LimitsTraced(events + [e], db', d, limits)
  {
    TakenLater(events, e, d, db.decisions[d], limits);
  }

  lemma PendingLater(events: seq<Event>, e: Event, db: Db, db': Db, pc: Pc)
    requires PendingTraced(events, db, pc) && DecisionsExtend(db, db')
    ensures PendingTraced(events + [e], db', pc)
  {
    hide LimitsTraced, DecisionsExtend;
    match pc
    case Decided(x, d, limits) => LimitsLater(events, e, db, db', d, limits);
    case Receipted(x, d, limits) => LimitsLater(events, e, db, db', d, limits);
    case _ =>
  }

  lemma DecisionsLater(events: seq<Event>, e: Event, db: Db, db': Db, d: nat)
    requires DecisionTraced(events, db, d) && DecisionsExtend(db, db')
    requires d >= |db.decisions| ==> DecisionTraced(events + [e], db', d)
    ensures DecisionTraced(events + [e], db', d)
  {
    hide Taken;
    if d < |db.decisions| {
      var limits :| Taken(events, d, db.decisions[d], limits);
      TakenLater(events, e, d, db.decisions[d], limits);
    }
  }

  /** Caller `i` moved on; new decisions, new grants and its own next write are traced, and the rest stays so. */
  lemma MovedTraced(events: seq<Event>, e: Event, w: World, i: nat, db': Db, pc: Pc)
    requires Traced(events, w) && i < |w.callers| && DecisionsExtend(w.db, db')
    requires forall d: nat | d >= |w.db.decisions| :: DecisionTraced(events + [e], db', d)
    requires |w.db.grants| <= |db'.grants| && forall k | 0 <= k < |w.db.grants| :: db'.grants[k] == w.db.grants[k]
    requires forall k | |w.db.grants| <= k < |db'.grants| ::
      LimitsTraced(events + [e], db', db'.grants[k].decision, Some(db'.grants[k].limits))
    requires PendingTraced(events + [e], db', pc)
    ensures Traced(events + [e], At(w, i, db', pc))
  {
    hide LimitsTraced, DecisionTraced, PendingTraced, DecisionsExtend;
    forall d: nat ensures DecisionTraced(events + [e], db', d) { DecisionsLater(events, e, w.db, db', d); }
    forall k | 0 <= k < |w.db.grants|
      ensures LimitsTraced(events + [e], db', db'.grants[k].decision, Some(db'.grants[k].limits))
    {
      LimitsLater(events, e, w.db, db', w.db.grants[k].decision, Some(w.db.grants[k].limits));
    }
    forall j | 0 <= j < |w.callers| ensures PendingTraced(events + [e], db', w.callers[j].pc) {
      PendingLater(events, e, w.db, db', w.callers[j].pc);
    }
  }

  lemma DecideTraced(events: seq<Event>, w: World, i: nat, e: Event)
    requires w == Run(events) && Traced(events, w) && i < |w.callers| && w.callers[i].pc.Authorizing? && e.Decide?
    ensures
      var x, v := w.callers[i].pc.intent, Authorize(e.facts);
      Traced(events + [e], At(w, i, WithDecision(w.db, x, v.outcome, e.grounds),
                              Decided(x, |w.db.decisions|, v.limits)))
  {
    hide Authorize, ResultText, Run, Traced;
    var x, v, d := w.callers[i].pc.intent, Authorize(e.facts), |w.db.decisions|;
    var db' := WithDecision(w.db, x, v.outcome, e.grounds);
    assert (events + [e])[..|events|] == events;
    assert TakenAt(events + [e], |events|, d, db'.decisions[d], v.limits);
    assert Taken(events + [e], d, db'.decisions[d], v.limits);
    hide Taken;
    MovedTraced(events, e, w, i, db', Decided(x, d, v.limits));
  }

  /** A step that decides nothing: what it grants is what its caller was about to. */
  lemma OtherTraced(events: seq<Event>, e: Event, w: World, i: nat, db': Db, pc: Pc)
    requires Traced(events, w) && i < |w.callers| && db'.decisions == w.db.decisions
    requires
      || db'.grants == w.db.grants
      || (w.callers[i].pc.Receipted? && w.callers[i].pc.limits.Some?
          && db'.grants == w.db.grants + [Grant(w.callers[i].pc.decision, w.callers[i].pc.limits.value)])
    requires
      || pc == w.callers[i].pc || !(pc.Decided? || pc.Receipted?)
      || (w.callers[i].pc.Decided? && pc == Receipted(pc.intent, w.callers[i].pc.decision, w.callers[i].pc.limits))
    ensures Traced(events + [e], At(w, i, db', pc))
  {
    hide Taken;
    assert PendingTraced(events, w.db, w.callers[i].pc);
    PendingLater(events, e, w.db, db', w.callers[i].pc);
    MovedTraced(events, e, w, i, db', pc);
  }

  lemma StepTraced(events: seq<Event>, w: World, e: Event)
    requires w == Run(events) && WorldOk(w) && Traced(events, w)
    ensures (InRange(w); Traced(events + [e], Step(w, e)))
  {
    InRange(w);
    hide WorldOk, Traced, Authorize, DecisionFor, ReceiptFor, ViewOf, Run;
    if e.Submit? {
      SubmitTraced(events, w, e);
    } else if e.caller < |w.callers| {
      hide CallerStep;
      CallerTraced(events, w, e, e.caller);
    } else {
      IdleTraced(events, w, e);
    }
  }

  lemma CallerTraced(events: seq<Event>, w: World, e: Event, i: nat)
    requires w == Run(events) && Traced(events, w) && i < |w.callers| && PcInRange(w.db, w.callers[i].pc)
    requires !e.Submit?
    ensures Traced(events + [e], CallerStep(w, e, i))
  {
    hide Traced, Authorize, DecisionFor, ReceiptFor, ViewOf, Run, FindKey;
    if InTurn(w.callers[i].pc, e) {
      if e.Decide? {
        DecideTraced(events, w, i, e);
      } else {
        OtherTraced(events, e, w, i, CallerStep(w, e, i).db, CallerStep(w, e, i).callers[i].pc);
      }
    } else {
      SameWorld(w, i);
      OtherTraced(events, e, w, i, w.db, w.callers[i].pc);
    }
  }

  lemma IdleTraced(events: seq<Event>, w: World, e: Event)
    requires Traced(events, w)
    ensures Traced(events + [e], w)
  {
    hide LimitsTraced, DecisionTraced, PendingTraced, DecisionsExtend;
    assert DecisionsExtend(w.db, w.db) by { SelfExtends(w.db); }
    forall d: nat ensures DecisionTraced(events + [e], w.db, d) {
      BeyondTraced(events + [e], w.db, d);
      DecisionsLater(events, e, w.db, w.db, d);
    }
    forall k | 0 <= k < |w.db.grants|
      ensures LimitsTraced(events + [e], w.db, w.db.grants[k].decision, Some(w.db.grants[k].limits))
    {
      LimitsLater(events, e, w.db, w.db, w.db.grants[k].decision, Some(w.db.grants[k].limits));
    }
    forall j | 0 <= j < |w.callers| ensures PendingTraced(events + [e], w.db, w.callers[j].pc) {
      PendingLater(events, e, w.db, w.db, w.callers[j].pc);
    }
  }

  lemma SelfExtends(db: Db)
    ensures DecisionsExtend(db, db)
  {
  }

  lemma BeyondTraced(events: seq<Event>, db: Db, d: nat)
    ensures d >= |db.decisions| ==> DecisionTraced(events, db, d)
  {
  }

  lemma SubmitTraced(events: seq<Event>, w: World, e: Event)
    requires Traced(events, w) && e.Submit?
    ensures Traced(events + [e], w.(callers := w.callers + [Caller(e.key, e.asked, Start)]))
  {
    hide LimitsTraced, DecisionTraced;
    IdleTraced(events, w, e);
  }

  lemma {:induction false} RunTraced(events: seq<Event>)
    ensures Traced(events, Run(events))
  {
    hide Traced, WorldOk, Step;
    if events == [] {
      NothingTraced();
    } else {
      var init, e := events[..|events| - 1], events[|events| - 1];
      RunTraced(init);
      StepTraced(init, Run(init), e);
      assert init + [e] == events;
    }
  }

  lemma NothingTraced()
    ensures Traced([], EmptyWorld())
  {
  }

  /**
   * In every run a capability carries the limits that the facts of its own decision allowed: some step decided on those
   * facts, its outcome and grounds are what the decision row holds, and it permits.
   */
  lemma GrantCarriesItsDecision(events: seq<Event>, k: nat)
    requires k < |Run(events).db.grants|
    ensures
      var db := Run(events).db;
      var g := db.grants[k];
      && g.decision < |db.decisions|
      && exists j: nat :: j < |events| && events[j].Decide?
           && |Run(events[..j]).db.decisions| == g.decision
           && Authorize(events[j].facts).limits == Some(g.limits)
           && db.decisions[g.decision].result == Authorize(events[j].facts).outcome
           && db.decisions[g.decision].evidence == events[j].grounds.evidence
           && db.decisions[g.decision].payload ==
                events[j].grounds.payload.(result := ResultText(db.decisions[g.decision].result))
  {
    hide Run, Authorize, ResultText;
    RunTraced(events);
    var db := Run(events).db;
    var g := db.grants[k];
    assert LimitsTraced(events, db, g.decision, Some(g.limits));
    var j: nat :| TakenAt(events, j, g.decision, db.decisions[g.decision], Some(g.limits));
  }

  // ---- whose request a key stands for ----

  /** The caller whose insertion created a row. */
  ghost function Creator(events: seq<Event>, x: nat): Option<nat> {
    if events == [] then None
    else
      var init, last := events[..|events| - 1], events[|events| - 1];
      if x < |Run(init).db.intents| then Creator(init, x)
      else if x < |Run(events).db.intents| && last.Insert? then Some(last.caller)
      else None
  }

  predicate InsertedBy(w: World, e: Event, x: nat) {
    e.Insert? && e.caller < |w.callers| && Mine(w.db, w.callers[e.caller], x)
  }

  /** The rows of before keep key and request; a new row is the inserting caller's. */
  ghost predicate RowsKept(a: World, b: World, e: Event) {
    && |a.callers| <= |b.callers| && |a.db.intents| <= |b.db.intents|
    && (forall i | 0 <= i < |a.callers| ::
          b.callers[i].key == a.callers[i].key && b.callers[i].asked == a.callers[i].asked)
    && (forall x | 0 <= x < |a.db.intents| ::
          b.db.intents[x].key == a.db.intents[x].key && b.db.intents[x].asked == a.db.intents[x].asked)
    && (forall x | |a.db.intents| <= x < |b.db.intents| :: InsertedBy(b, e, x))
  }

  ghost predicate SameRequests(a: seq<Intent>, b: seq<Intent>) {
    |a| == |b| && forall x | 0 <= x < |a| :: b[x].key == a[x].key && b[x].asked == a[x].asked
  }

  lemma MovedRows(w: World, i: nat, db': Db, pc: Pc, e: Event)
    requires i < |w.callers| && SameRequests(w.db.intents, db'.intents)
    ensures RowsKept(w, At(w, i, db', pc), e)
  {
  }

  lemma InsertedRows(w: World, i: nat, e: Event)
    requires i < |w.callers| && e.Insert? && e.caller == i
    ensures RowsKept(w, At(w, i, WithIntent(w.db, w.callers[i]), Authorizing(|w.db.intents|)), e)
  {
  }

  lemma MarkedRows(db: Db, x: nat)
    requires x < |db.intents|
    ensures SameRequests(db.intents, MarkedDecided(db, x).intents)
  {
  }

  lemma CallerRows(w: World, e: Event, i: nat)
    requires i < |w.callers| && PcInRange(w.db, w.callers[i].pc) && !e.Submit? && e.caller == i
    ensures RowsKept(w, CallerStep(w, e, i), e)
  {
    hide RowsKept, WithIntent, MarkedDecided, Authorize, DecisionFor, ReceiptFor, ViewOf;
    var c := w.callers[i];
    SameWorld(w, i);
    MovedRows(w, i, w.db, c.pc, e);
    if e.Insert? {
      InsertedRows(w, i, e);
      MovedRows(w, i, w.db, Lost, e);
    } else {
      var db', pc := CallerStep(w, e, i).db, CallerStep(w, e, i).callers[i].pc;
      if c.pc.Granted? && e.Finish? { MarkedRows(w.db, c.pc.intent); }
      MovedRows(w, i, db', pc, e);
    }
  }

  lemma StepRows(w: World, e: Event)
    requires WorldOk(w)
    ensures (InRange(w); RowsKept(w, Step(w, e), e))
  {
    InRange(w);
    hide WorldOk, RowsKept, CallerStep;
    SubmitRows(w, e);
    if !e.Submit? && e.caller < |w.callers| { CallerRows(w, e, e.caller); }
  }

  lemma SameWorld(w: World, i: nat)
    requires i < |w.callers|
    ensures At(w, i, w.db, w.callers[i].pc) == w
  {
  }

  lemma SubmitRows(w: World, e: Event)
    ensures RowsKept(w, w, e)
    ensures e.Submit? ==> RowsKept(w, w.(callers := w.callers + [Caller(e.key, e.asked, Start)]), e)
  {
  }

  /** Every row has a creator, and carries that caller's key, actor and parameters. */
  lemma {:induction false} CreatorOwns(events: seq<Event>, x: nat)
    requires x < |Run(events).db.intents|
    ensures
      var w, c := Run(events), Creator(events, x);
      c.Some? && c.value < |w.callers| && Mine(w.db, w.callers[c.value], x)
  {
    hide WorldOk, Step;
    if events != [] {
      var init, last := events[..|events| - 1], events[|events| - 1];
      StepRows(Run(init), last);
      if x < |Run(init).db.intents| {
        CreatorOwns(init, x);
      } else {
        assert InsertedBy(Run(events), last, x);
      }
    }
  }

  ghost predicate Completed(w: World, i: nat) { i < |w.callers| && w.callers[i].pc.Done? }

  /** The row a completed call was given carries that call's own actor and parameters. */
  ghost predicate GivenOwn(w: World, i: nat)
    requires Completed(w, i)
  {
    var x := w.callers[i].pc.view.intent;
    x < |w.db.intents| && w.db.intents[x].asked == w.callers[i].asked
  }

  /**
   * Idempotency looks at the key only. A completed call is given a row of its own actor, or with its own
   * parameters, exactly when they are those of the call that created the row; a call that did the work is.
   */
  lemma OwnParametersExact(events: seq<Event>, i: nat)
    requires Completed(Run(events), i)
    ensures
      var w := Run(events);
      var c := Creator(events, w.callers[i].pc.view.intent);
      && c.Some? && c.value < |w.callers| && w.callers[c.value].key == w.callers[i].key
      && (GivenOwn(w, i) <==> w.callers[i].asked == w.callers[c.value].asked)
      && (!w.callers[i].pc.view.replayed ==> GivenOwn(w, i))
    ensures
      var w := Run(events);
      var x, own := w.callers[i].pc.view.intent, w.callers[i].asked;
      var c := Creator(events, x);
      && x < |w.db.intents| && c.Some? && c.value < |w.callers|
      && (w.db.intents[x].asked.actor == own.actor <==> own.actor == w.callers[c.value].asked.actor)
      && (w.db.intents[x].asked.parameters == own.parameters
          <==> own.parameters == w.callers[c.value].asked.parameters)
  {
    hide Run;
    var w := Run(events);
    assert CallerOk(w.db, w.callers[i]);
    CreatorOwns(events, w.callers[i].pc.view.intent);
  }

  ghost predicate AllGivenOwn(w: World, key: Text) {
    forall i: nat | Completed(w, i) && w.callers[i].key == key :: GivenOwn(w, i)
  }

  ghost predicate AllAgree(w: World, key: Text) {
    forall i: nat, j: nat | Completed(w, i) && Completed(w, j) && w.callers[i].key == key && w.callers[j].key == key ::
      w.callers[i].asked == w.callers[j].asked
  }

  /**
   * All completed calls with a key are given their own request exactly when they agree with one another
   * and one of them is given its own; when the creating call is among them, exactly when they agree.
   */
  lemma KeyGivesOwnExact(events: seq<Event>, i: nat)
    requires Completed(Run(events), i)
    ensures
      var w := Run(events);
      var key, c := w.callers[i].key, Creator(events, w.callers[i].pc.view.intent);
      && (AllGivenOwn(w, key) <==> AllAgree(w, key) && GivenOwn(w, i))
      && (c.Some? && Completed(w, c.value) ==> (AllGivenOwn(w, key) <==> AllAgree(w, key)))
  {
    hide Run, CallerOk;
    var w := Run(events);
    var key, x := w.callers[i].key, w.callers[i].pc.view.intent;
    OwnParametersExact(events, i);
    forall j: nat | Completed(w, j) && w.callers[j].key == key
      ensures w.callers[j].pc.view.intent == x
      ensures GivenOwn(w, j) <==> w.callers[j].asked == w.callers[Creator(events, x).value].asked
    {
      OneIntentPerKey(events, i, j);
      OwnParametersExact(events, j);
    }
  }

  /** A second caller, with other parameters or another actor, is given the first one's row. */
  lemma KeyReuseIgnoresParameters(key: Text, p: Submission, q: Submission) returns (events: seq<Event>)
    requires p != q
    ensures
      var w := Run(events);
      |w.callers| == 2 && w.callers[1] == Caller(key, q, Done(View(0, None, None, true)))
      && |w.db.intents| == 1 && w.db.intents[0].asked == p
  {
    hide WorldOk;
    events := [Submit(key, p), Submit(key, q), Look(0), Insert(0), Look(1)];
    var e1, e2, e3, e4 := [Submit(key, p)], [Submit(key, p), Submit(key, q)],
      [Submit(key, p), Submit(key, q), Look(0)], [Submit(key, p), Submit(key, q), Look(0), Insert(0)];
    assert events[..4] == e4 && e4[..3] == e3 && e3[..2] == e2 && e2[..1] == e1 && e1[..0] == [];
    var a, b := Caller(key, p, Start), Caller(key, q, Start);
    assert Run([]) == EmptyWorld();
    assert Run(e1) == World(Db([], [], [], []), [a]);
    assert Run(e2) == World(Db([], [], [], []), [a, b]);
    assert Run(e3) == World(Db([], [], [], []), [a.(pc := Inserting), b]);
    assert Run(e4) == World(Db([Intent(key, p, false)], [], [], []), [a.(pc := Authorizing(0)), b]);
  }

  /** When the creating call dies, a lone completed call is given a dead stranger's undecided row. */
  lemma KeyReuseAfterCrash(key: Text, p: Submission, q: Submission) returns (events: seq<Event>)
    requires p != q
    ensures
      var w := Run(events);
      |w.callers| == 2 && w.callers == [Caller(key, p, Failed), Caller(key, q, Done(View(0, None, None, true)))]
      && AllAgree(w, key) && !AllGivenOwn(w, key)
  {
    hide WorldOk;
    var e1, e2 := [Submit(key, p)], [Submit(key, p), Look(0)];
    var e3, e4 := e2 + [Insert(0)], e2 + [Insert(0), Crash(0)];
    var e5 := e4 + [Submit(key, q)];
    events := e5 + [Look(1)];
    assert events[..5] == e5 && e5[..4] == e4 && e4[..3] == e3 && e3[..2] == e2 && e2[..1] == e1 && e1[..0] == [];
    var a, b, row := Caller(key, p, Start), Caller(key, q, Start), Intent(key, p, false);
    assert Run([]) == EmptyWorld();
    assert Run(e1) == World(Db([], [], [], []), [a]);
    assert Run(e2) == World(Db([], [], [], []), [a.(pc := Inserting)]);
    assert Run(e3) == World(Db([row], [], [], []), [a.(pc := Authorizing(0))]);
    assert Run(e4) == World(Db([row], [], [], []), [a.(pc := Failed)]);
    assert Run(e5) == World(Db([row], [], [], []), [a.(pc := Failed), b]);
    var w := Run(events);
    assert w == World(Db([row], [], [], []), [a.(pc := Failed), b.(pc := Done(View(0, None, None, true)))]);
    assert Completed(w, 1) && !GivenOwn(w, 1);
  }
}
