/** Granting, checking, recording and withdrawing capabilities over the capability tables. */
module CapabilityService {
  import opened Common
  import opened CapabilityTypes

  /** A row of the capability table. Rows are kept in creation order and named by position. */
  datatype Capability = Capability(actorId: string, actionType: string, resourceScope: string, attenuated: bool,
                                   limits: Limits, status: Status, sourceDecisionId: Option<string>,
                                   assuranceLeaseId: Option<string>)

  datatype Usage = Usage(capabilityId: nat, createdAt: int)

  datatype Db = Db(caps: seq<Capability>, usages: seq<Usage>, leases: map<string, Lease>)

  datatype Exercise = Exercise(actorId: string, actionType: string, amount: Option<string>,
                               targetAddress: Option<string>, now: int)

  datatype Check = Allowed(id: nat) | Denied(capability: Option<nat>, denial: Denial)

  predicate Candidate(db: Db, id: nat, args: Exercise)
    requires id < |db.caps|
  {
    var c := db.caps[id];
    c.actorId == args.actorId && c.actionType == args.actionType && c.status == ACTIVE
  }

  function LeaseOf(db: Db, id: string): Option<Lease> {
    if id in db.leases then Some(db.leases[id]) else None
  }

  /** An empty reference means the grant depends on no lease. */
  predicate NeedsLease(c: Capability) {
    c.assuranceLeaseId.Some? && c.assuranceLeaseId.value != ""
  }

  /** Uses of one capability recorded at or after an instant. */
  function CountSince(usages: seq<Usage>, id: nat, since: int): nat {
    if usages == [] then 0
    else
      var u := usages[|usages| - 1];
      CountSince(usages[..|usages| - 1], id, since) + (if u.capabilityId == id && u.createdAt >= since then 1 else 0)
  }

  function WindowStart(now: int, windowSeconds: int): int { now - windowSeconds * 1000 }

  /** The bounds of one candidate: each is stated on its own, in no order. */
  predicate WithinBounds(db: Db, id: nat, args: Exercise)
    requires id < |db.caps|
  {
    var c := db.caps[id];
    && ExpiryAhead(c.limits.expiresAt, args.now)
    && (NeedsLease(c) ==> IsLeaseLive(LeaseOf(db, c.assuranceLeaseId.value), args.now))
    && WithinAmountLimit(args.amount, c.limits.amountLimit)
    && TargetAllowed(args.targetAddress, c.limits.allowedTargets)
    && (c.limits.frequencyLimit.Some? && c.limits.frequencyWindowSeconds.Some? ==>
          CountSince(db.usages, id, WindowStart(args.now, c.limits.frequencyWindowSeconds.value))
            < c.limits.frequencyLimit.value)
  }

  predicate Usable(db: Db, id: nat, args: Exercise)
    requires id < |db.caps|
  {
    Candidate(db, id, args) && WithinBounds(db, id, args)
  }

  /** The first bound a candidate misses, in the order the check tries them. */
  function FirstMiss(db: Db, id: nat, args: Exercise): Option<Denial>
    requires id < |db.caps|
  {
    var c := db.caps[id];
    if !ExpiryAhead(c.limits.expiresAt, args.now) then Some(CAPABILITY_EXPIRED)
    else if NeedsLease(c) && !IsLeaseLive(LeaseOf(db, c.assuranceLeaseId.value), args.now) then Some(ASSURANCE_EXPIRED)
    else if !WithinAmountLimit(args.amount, c.limits.amountLimit) then Some(AMOUNT_EXCEEDED)
    else if !TargetAllowed(args.targetAddress, c.limits.allowedTargets) then Some(TARGET_NOT_ALLOWED)
    else if c.limits.frequencyLimit.Some? && c.limits.frequencyWindowSeconds.Some?
            && CountSince(db.usages, id, WindowStart(args.now, c.limits.frequencyWindowSeconds.value))
                 >= c.limits.frequencyLimit.value then Some(FREQUENCY_EXCEEDED)
    else None
  }

  /** Candidates below position `n`, newest first, ending on the last denial met. */
  function Scan(db: Db, args: Exercise, n: nat, lastDenial: Check): Check
    requires n <= |db.caps|
  {
    if n == 0 then lastDenial
    else if !Candidate(db, n - 1, args) then Scan(db, args, n - 1, lastDenial)
    else
      match FirstMiss(db, n - 1, args)
      case None => Allowed(n - 1)
      case Some(d) => Scan(db, args, n - 1, Denied(Some(n - 1), d))
  }

  function CheckResult(db: Db, args: Exercise): Check {
    Scan(db, args, |db.caps|, Denied(None, NOT_FOUND))
  }

  lemma {:induction false} ScanAllowed(db: Db, args: Exercise, n: nat, last: Check)
    requires n <= |db.caps| && last.Denied?
    ensures var r := Scan(db, args, n, last);
            && (r.Allowed? <==> exists i :: 0 <= i < n && Usable(db, i, args))
            && (r.Allowed? ==> r.id < n && Usable(db, r.id, args)
                               && forall j | r.id < j < n :: !Usable(db, j, args))
  {
    if n > 0 {
      assert Usable(db, n - 1, args) <==> Candidate(db, n - 1, args) && FirstMiss(db, n - 1, args).None?;
      if !Candidate(db, n - 1, args) {
        ScanAllowed(db, args, n - 1, last);
      } else if FirstMiss(db, n - 1, args).Some? {
        ScanAllowed(db, args, n - 1, Denied(Some(n - 1), FirstMiss(db, n - 1, args).value));
      }
    }
  }

  lemma {:induction false} ScanDenied(db: Db, args: Exercise, n: nat, last: Check)
    requires n <= |db.caps| && last.Denied? && Scan(db, args, n, last).Denied?
    ensures if forall i | 0 <= i < n :: !Candidate(db, i, args)
            then Scan(db, args, n, last) == last
            else exists i :: DeniedBy(db, args, n, i, Scan(db, args, n, last))
  {
    if n > 0 {
      var r := Scan(db, args, n, last);
      if !Candidate(db, n - 1, args) {
        ScanDenied(db, args, n - 1, last);
        if exists i :: 0 <= i < n && Candidate(db, i, args) {
          var i :| 0 <= i < n && Candidate(db, i, args);
          assert i < n - 1;
          var k :| DeniedBy(db, args, n - 1, k, r);
          assert DeniedBy(db, args, n, k, r);
        }
      } else {
        ScanDenied(db, args, n - 1, Denied(Some(n - 1), FirstMiss(db, n - 1, args).value));
        if forall i | 0 <= i < n - 1 :: !Candidate(db, i, args) {
          assert DeniedBy(db, args, n, n - 1, r);
        } else {
          var k :| DeniedBy(db, args, n - 1, k, r);
          assert DeniedBy(db, args, n, k, r);
        }
      }
    }
  }

  /** `r` names the oldest candidate below `n` and the bound it misses. */
  ghost predicate DeniedBy(db: Db, args: Exercise, n: nat, i: int, r: Check)
    requires n <= |db.caps|
  {
    && 0 <= i < n && Candidate(db, i, args) && FirstMiss(db, i, args).Some?
    && r == Denied(Some(i), FirstMiss(db, i, args).value)
    && forall j | 0 <= j < i :: !Candidate(db, j, args)
  }

  /**
   * The check is sound and complete: it allows exactly when some ACTIVE candidate passes
   * every bound, and then returns the newest such candidate. A refusal with no candidate is
   * NOT_FOUND; any other names the oldest candidate and a bound that candidate misses.
   */
  lemma CheckExact(db: Db, args: Exercise)
    ensures var r := CheckResult(db, args);
            && (r.Allowed? <==> exists i :: 0 <= i < |db.caps| && Usable(db, i, args))
            && (r.Allowed? ==> r.id < |db.caps| && Usable(db, r.id, args)
                               && forall j | r.id < j < |db.caps| :: !Usable(db, j, args))
            && (r == Denied(None, NOT_FOUND) <==> forall i | 0 <= i < |db.caps| :: !Candidate(db, i, args))
            && (r.Denied? && r != Denied(None, NOT_FOUND) ==> exists i :: DeniedBy(db, args, |db.caps|, i, r))
  {
    ScanAllowed(db, args, |db.caps|, Denied(None, NOT_FOUND));
    if CheckResult(db, args).Denied? {
      ScanDenied(db, args, |db.caps|, Denied(None, NOT_FOUND));
    }
  }

  // ---- what a refusal means ----

  /** The uses of a capability recorded at or after an instant, each by its place in the table. */
  ghost function UsesSince(usages: seq<Usage>, id: nat, since: int): set<nat> {
    set k: nat | k < |usages| && usages[k].capabilityId == id && usages[k].createdAt >= since
  }

  lemma {:induction false} CountSinceIs(usages: seq<Usage>, id: nat, since: int)
    ensures CountSince(usages, id, since) == |UsesSince(usages, id, since)|
  {
    if usages == [] {
      assert UsesSince(usages, id, since) == {};
    } else {
      var init, last := usages[..|usages| - 1], |usages| - 1;
      CountSinceIs(init, id, since);
      assert UsesSince(usages, id, since) == UsesSince(init, id, since)
        + (if usages[last].capabilityId == id && usages[last].createdAt >= since then {last as nat} else {});
    }
  }

  /** The capability misses the bound that a denial names: expiry, lease, ceiling, allow-list or uses in its window. */
  ghost predicate Misses(db: Db, c: Capability, id: nat, args: Exercise, d: Denial) {
    match d
    case CAPABILITY_EXPIRED => c.limits.expiresAt.Some? && c.limits.expiresAt.value <= args.now
    case ASSURANCE_EXPIRED =>
      && c.assuranceLeaseId.Some? && c.assuranceLeaseId.value != ""
      && (c.assuranceLeaseId.value in db.leases ==>
            var lease := db.leases[c.assuranceLeaseId.value];
            lease.status != ACTIVE || lease.expiresAt <= args.now)
    case AMOUNT_EXCEEDED =>
      && ParseAmount(c.limits.amountLimit).Some? && args.amount.Some?
      && (ParseAmount(args.amount).Some? ==>
            ParseAmount(args.amount).value > ParseAmount(c.limits.amountLimit).value)
    case TARGET_NOT_ALLOWED =>
      && c.limits.allowedTargets != []
      && (args.targetAddress.Some? ==> ToLower(args.targetAddress.value) !in c.limits.allowedTargets)
    case FREQUENCY_EXCEEDED =>
      && c.limits.frequencyLimit.Some? && c.limits.frequencyWindowSeconds.Some?
      && |UsesSince(db.usages, id, args.now - c.limits.frequencyWindowSeconds.value * 1000)|
           >= c.limits.frequencyLimit.value
    case NOT_FOUND => false
  }

  /** The place of a bound in the order the check tries them. */
  function TriedAt(d: Denial): nat {
    match d
    case CAPABILITY_EXPIRED => 0
    case ASSURANCE_EXPIRED => 1
    case AMOUNT_EXCEEDED => 2
    case TARGET_NOT_ALLOWED => 3
    case FREQUENCY_EXCEEDED => 4
    case NOT_FOUND => 5
  }

  ghost predicate MeetsBefore(db: Db, c: Capability, id: nat, args: Exercise, d: Denial) {
    forall e: Denial | TriedAt(e) < TriedAt(d) :: !Misses(db, c, id, args, e)
  }

  ghost predicate Asked(c: Capability, args: Exercise) {
    c.actorId == args.actorId && c.actionType == args.actionType && c.status == ACTIVE
  }

  /** A capability is usable exactly when it is an active one of the actor for the action and misses no bound. */
  lemma UsableMeans(db: Db, id: nat, args: Exercise)
    requires id < |db.caps|
    ensures Usable(db, id, args) <==>
      Asked(db.caps[id], args) && forall d: Denial :: !Misses(db, db.caps[id], id, args, d)
  {
    var c := db.caps[id];
    if c.limits.frequencyWindowSeconds.Some? {
      CountSinceIs(db.usages, id, args.now - c.limits.frequencyWindowSeconds.value * 1000);
    }
    MissesEach(db, c, id, args);
  }

  lemma MissesEach(db: Db, c: Capability, id: nat, args: Exercise)
    ensures (forall d: Denial :: !Misses(db, c, id, args, d)) <==>
      && !Misses(db, c, id, args, CAPABILITY_EXPIRED) && !Misses(db, c, id, args, ASSURANCE_EXPIRED)
      && !Misses(db, c, id, args, AMOUNT_EXCEEDED) && !Misses(db, c, id, args, TARGET_NOT_ALLOWED)
      && !Misses(db, c, id, args, FREQUENCY_EXCEEDED)
  {
    hide UsesSince, ParseAmount, ToLower;
  }

  lemma FirstMissMeans(db: Db, id: nat, args: Exercise)
    requires id < |db.caps| && FirstMiss(db, id, args).Some?
    ensures
      var d := FirstMiss(db, id, args).value;
      Misses(db, db.caps[id], id, args, d) && MeetsBefore(db, db.caps[id], id, args, d)
  {
    var c := db.caps[id];
    if c.limits.frequencyWindowSeconds.Some? {
      CountSinceIs(db.usages, id, args.now - c.limits.frequencyWindowSeconds.value * 1000);
    }
  }

  /** Why the check refuses: no candidate, or the oldest one misses the named bound and none tried before it. */
  ghost predicate Refused(db: Db, args: Exercise, r: Check) {
    r.Denied? ==>
      if r.capability.None? then r.denial == NOT_FOUND && forall i | 0 <= i < |db.caps| :: !Asked(db.caps[i], args)
      else
        var i := r.capability.value;
        && i < |db.caps| && Asked(db.caps[i], args) && (forall j | 0 <= j < i :: !Asked(db.caps[j], args))
        && Misses(db, db.caps[i], i, args, r.denial) && MeetsBefore(db, db.caps[i], i, args, r.denial)
  }

  lemma RefusalMeans(db: Db, args: Exercise)
    ensures Refused(db, args, CheckResult(db, args))
  {
    hide Misses, MeetsBefore, FirstMiss, CheckResult;
    CheckExact(db, args);
    var r := CheckResult(db, args);
    if r.Denied? {
      if r == Denied(None, NOT_FOUND) {
        forall i | 0 <= i < |db.caps| ensures !Asked(db.caps[i], args) { assert !Candidate(db, i, args); }
      } else {
        var i :| DeniedBy(db, args, |db.caps|, i, r);
        forall j | 0 <= j < i ensures !Asked(db.caps[j], args) { assert !Candidate(db, j, args); }
        FirstMissMeans(db, i, args);
      }
    }
  }

  /** When one capability is all there is for a request, the first bound it misses is what the request is told. */
  lemma SoleRefusal(db: Db, id: nat, args: Exercise, d: Denial)
    requires id < |db.caps| && Asked(db.caps[id], args)
    requires forall k | 0 <= k < |db.caps| && k != id :: !Asked(db.caps[k], args)
    requires Misses(db, db.caps[id], id, args, d) && MeetsBefore(db, db.caps[id], id, args, d)
    ensures CheckResult(db, args) == Denied(Some(id), d)
  {
    hide Misses, Usable, CheckResult;
    CheckExact(db, args);
    RefusalMeans(db, args);
    UsableMeans(db, id, args);
    var r := CheckResult(db, args);
    if r.Allowed? { UsableMeans(db, r.id, args); }
    SameTurn(r.denial, d);
  }

  lemma SameTurn(d: Denial, e: Denial)
    requires TriedAt(d) == TriedAt(e)
    ensures d == e
  {
  }

  function WithStatus(c: Capability, status: Status): Capability { c.(status := status) }

  /** The rows after one conditional status update: matching rows move, all others stay. */
  function Moved(caps: seq<Capability>, matches: Capability -> bool, status: Status): seq<Capability> {
    seq(|caps|, i requires 0 <= i < |caps| => if matches(caps[i]) then WithStatus(caps[i], status) else caps[i])
  }

  /** The places where two versions of the table differ. */
  ghost function Rewritten(before: seq<Capability>, after: seq<Capability>): set<nat>
    requires |before| == |after|
  {
    set k: nat | k < |before| && after[k] != before[k]
  }

  /** As many rows are rewritten as match, when no matching row has the status already. */
  lemma {:induction false} RewrittenCount(caps: seq<Capability>, matches: Capability -> bool, status: Status)
    requires forall c | c in caps && matches(c) :: c.status != status
    ensures |Rewritten(caps, Moved(caps, matches, status))| == |Filter(caps, matches)|
  {
    hide Rewritten, Moved, Filter;
    if caps == [] {
      NoneRewritten(matches, status);
    } else {
      var init, last := caps[..|caps| - 1], caps[|caps| - 1];
      assert caps == init + [last] && forall c | c in init :: c in caps;
      RewrittenCount(init, matches, status);
      RewrittenOneMore(init, last, matches, status);
      FilterAppend(init, [last], matches);
      FilterOne(last, matches);
    }
  }

  lemma NoneRewritten(matches: Capability -> bool, status: Status)
    ensures Rewritten([], Moved([], matches, status)) == {} && Filter([], matches) == []
  {
  }

  lemma FilterOne(c: Capability, matches: Capability -> bool)
    ensures Filter([c], matches) == if matches(c) then [c] else []
  {
    assert Filter([c][1..], matches) == [];
  }

  lemma RewrittenOneMore(init: seq<Capability>, last: Capability, matches: Capability -> bool, status: Status)
    requires matches(last) ==> last.status != status
    ensures
      |Rewritten(init + [last], Moved(init + [last], matches, status))|
      == |Rewritten(init, Moved(init, matches, status))| + (if matches(last) then 1 else 0)
  {
    var a, b := Moved(init, matches, status), Moved(init + [last], matches, status);
    assert b == a + [if matches(last) then WithStatus(last, status) else last];
    RewrittenAppend(init, a, last, b[|init|]);
  }

  lemma RewrittenAppend(before: seq<Capability>, after: seq<Capability>, c: Capability, d: Capability)
    requires |before| == |after|
    ensures |Rewritten(before + [c], after + [d])| == |Rewritten(before, after)| + (if c != d then 1 else 0)
  {
    var n: nat := |before|;
    var a, b := Rewritten(before, after), Rewritten(before + [c], after + [d]);
    assert n !in a;
    forall k: nat ensures k in b <==> k in a || (k == n && c != d) {
      if k < n { assert (before + [c])[k] == before[k] && (after + [d])[k] == after[k]; }
    }
    assert b == a + if c != d then {n} else {};
  }

  /** No action type is given, or an empty one. */
  predicate ForAll(actionType: Option<string>) { actionType.None? || actionType.value == "" }

  class CapabilityService {
    var caps: seq<Capability>
    var usages: seq<Usage>
    var leases: map<string, Lease>

    function Tables(): Db
      reads this
    {
      Db(caps, usages, leases)
    }

    constructor ()
      ensures Tables() == Db([], [], map[])
    {
      caps, usages, leases := [], [], map[];
    }

    method GrantCapability(actorId: string, actionType: string, resourceScope: string, limits: Limits,
                           sourceDecisionId: Option<string>, assuranceLeaseId: Option<string>, attenuated: bool)
      returns (id: nat)
      modifies this`caps
      ensures id == |old(caps)|
      ensures caps == old(caps) + [Capability(actorId, actionType, resourceScope, attenuated, limits, ACTIVE,
                                              sourceDecisionId, assuranceLeaseId)]
    {
      id := |caps|;
      caps := caps + [Capability(actorId, actionType, resourceScope, attenuated, limits, ACTIVE,
                                 sourceDecisionId, assuranceLeaseId)];
    }

    /** Walks the candidates newest first; the last refusal stands when none passes. */
    method CheckCapability(args: Exercise) returns (r: Check)
      ensures r == CheckResult(Tables(), args)
      ensures Refused(Tables(), args, r)
    {
      RefusalMeans(Tables(), args);
      var lastDenial := Denied(None, NOT_FOUND);
      var n: nat := |caps|;
      while n > 0
        invariant n <= |caps|
        invariant CheckResult(Tables(), args) == Scan(Tables(), args, n, lastDenial)
      {
        n := n - 1;
        var c := caps[n];
        if !(c.actorId == args.actorId && c.actionType == args.actionType && c.status == ACTIVE) { continue; }
        if !ExpiryAhead(c.limits.expiresAt, args.now) {
          lastDenial := Denied(Some(n), CAPABILITY_EXPIRED);
          continue;
        }
        if NeedsLease(c) {
          var lease := LeaseOf(Tables(), c.assuranceLeaseId.value);
          if !IsLeaseLive(lease, args.now) {
            lastDenial := Denied(Some(n), ASSURANCE_EXPIRED);
            continue;
          }
        }
        if !WithinAmountLimit(args.amount, c.limits.amountLimit) {
          lastDenial := Denied(Some(n), AMOUNT_EXCEEDED);
          continue;
        }
        if !TargetAllowed(args.targetAddress, c.limits.allowedTargets) {
          lastDenial := Denied(Some(n), TARGET_NOT_ALLOWED);
          continue;
        }
        if c.limits.frequencyLimit.Some? && c.limits.frequencyWindowSeconds.Some? {
          var since := args.now - c.limits.frequencyWindowSeconds.value * 1000;
          var used := CountSince(usages, n, since);
          if used >= c.limits.frequencyLimit.value {
            lastDenial := Denied(Some(n), FREQUENCY_EXCEEDED);
            continue;
          }
        }
        return Allowed(n);
      }
      return lastDenial;
    }

    method RecordUsage(capabilityId: nat, now: int)
      modifies this`usages
      ensures usages == old(usages) + [Usage(capabilityId, now)]
    {
      usages := usages + [Usage(capabilityId, now)];
    }

    method RevokeCapabilities(actorId: string, actionType: Option<string>) returns (count: nat)
      modifies this`caps
      ensures caps == Moved(old(caps), Revocable(actorId, actionType), REVOKED)
      ensures |caps| == |old(caps)| && forall k | 0 <= k < |caps| ::
        var c := old(caps)[k];
        caps[k] == if c.actorId == actorId && c.status == ACTIVE
                      && (ForAll(actionType) || actionType == Some(c.actionType))
                   then c.(status := REVOKED) else c
      ensures count == |Filter(old(caps), Revocable(actorId, actionType))| == |Rewritten(old(caps), caps)|
    {
      var matches := Revocable(actorId, actionType);
      RewrittenCount(caps, matches, REVOKED);
      count := |Filter(caps, matches)|;
      caps := Moved(caps, matches, REVOKED);
    }

    method SuspendCapabilities(actorId: string) returns (count: nat)
      modifies this`caps
      ensures caps == Moved(old(caps), Revocable(actorId, None), SUSPENDED)
      ensures |caps| == |old(caps)| && forall k | 0 <= k < |caps| ::
        var c := old(caps)[k];
        caps[k] == if c.actorId == actorId && c.status == ACTIVE then c.(status := SUSPENDED) else c
      ensures count == |Filter(old(caps), Revocable(actorId, None))| == |Rewritten(old(caps), caps)|
    {
      var matches := Revocable(actorId, None);
      RewrittenCount(caps, matches, SUSPENDED);
      count := |Filter(caps, matches)|;
      caps := Moved(caps, matches, SUSPENDED);
    }
  }

  /** The actor's ACTIVE rows, for one action type or (absent or empty) for all. */
  function Revocable(actorId: string, actionType: Option<string>): Capability -> bool {
    (c: Capability) => c.actorId == actorId && c.status == ACTIVE
                       && (actionType.None? || actionType.value == "" || c.actionType == actionType.value)
  }

  /** The withdrawal of an actor's rows, for one action or (absent or empty) for all, covers this exercise. */
  predicate Covers(actorId: string, actionType: Option<string>, args: Exercise) {
    args.actorId == actorId && (actionType.None? || actionType.value == "" || actionType.value == args.actionType)
  }

  /** What a withdrawal covers is refused for want of a capability; what it does not cover is answered as before. */
  lemma WithdrawalExact(db: Db, actorId: string, actionType: Option<string>, status: Status, args: Exercise)
    requires status != ACTIVE
    ensures
      var after := db.(caps := Moved(db.caps, Revocable(actorId, actionType), status));
      CheckResult(after, args) == if Covers(actorId, actionType, args) then Denied(None, NOT_FOUND)
                                  else CheckResult(db, args)
  {
    hide FirstMiss;
    var after := db.(caps := Moved(db.caps, Revocable(actorId, actionType), status));
    if Covers(actorId, actionType, args) {
      CheckExact(after, args);
    } else {
      ScanSpared(db, actorId, actionType, status, args, |db.caps|, Denied(None, NOT_FOUND));
    }
  }

  lemma {:induction false} ScanSpared(db: Db, actorId: string, actionType: Option<string>, status: Status,
                                      args: Exercise, n: nat, last: Check)
    requires status != ACTIVE && !Covers(actorId, actionType, args) && n <= |db.caps|
    ensures Scan(db.(caps := Moved(db.caps, Revocable(actorId, actionType), status)), args, n, last)
         == Scan(db, args, n, last)
  {
    if n > 0 {
      var after := db.(caps := Moved(db.caps, Revocable(actorId, actionType), status));
      if Candidate(db, n - 1, args) {
        SameMiss(db, after, n - 1, args);
        if FirstMiss(db, n - 1, args).Some? {
          ScanSpared(db, actorId, actionType, status, args, n - 1,
                     Denied(Some(n - 1), FirstMiss(db, n - 1, args).value));
        }
      } else {
        ScanSpared(db, actorId, actionType, status, args, n - 1, last);
      }
    }
  }

  lemma SameMiss(db: Db, after: Db, id: nat, args: Exercise)
    requires id < |db.caps| && id < |after.caps| && after.caps[id] == db.caps[id]
    requires after.usages == db.usages && after.leases == db.leases
    ensures FirstMiss(after, id, args) == FirstMiss(db, id, args)
  {
  }

  /** After a full revocation or suspension no check of that actor passes, whatever it asks. */
  lemma WithdrawnMeansDenied(db: Db, actorId: string, status: Status, args: Exercise)
    requires status != ACTIVE && args.actorId == actorId
    ensures CheckResult(db.(caps := Moved(db.caps, Revocable(actorId, None), status)), args) == Denied(None, NOT_FOUND)
  {
    CheckExact(db.(caps := Moved(db.caps, Revocable(actorId, None), status)), args);
  }
}
