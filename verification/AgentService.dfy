/** The agent service as it runs: status, lease and capability rows updated in order. */
module AgentService {
  import opened Common
  import opened CapabilityTypes
  import opened CapabilityService
  import L = AgentLifecycle

  class AgentService {
    const agentId: string
    const actorId: string
    const terms: L.Terms
    var stage: L.AgentStatus
    var lease: Option<string>
    var ownLeases: set<string>
    var tables: Db
    var now: int

    ghost function Contents(): L.State
      reads this
    {
      L.State(agentId, actorId, stage, lease, ownLeases, tables, now)
    }

    ghost predicate Valid()
      reads this
    {
      L.Anchored(Contents())
    }

    /** `CreateAgent`: a draft, for an actor that holds nothing yet. */
    constructor (agent: string, actor: string, db: Db, at: int, leaseTerms: L.Terms)
      requires forall c | c in db.caps :: c.actorId != actor
      ensures Valid() && L.Fresh(Contents())
      ensures Contents() == L.State(agent, actor, L.DRAFT, None, {}, db, at) && terms == leaseTerms
    {
      agentId, actorId, terms := agent, actor, leaseTerms;
      stage, lease, ownLeases, tables, now := L.DRAFT, None, {}, db, at;
    }

    method Transition(to: L.AgentStatus) returns (ok: bool)
      modifies this`stage
      ensures ok <==> L.Movable(old(Contents()), to)
      ensures Contents() == L.Move(old(Contents()), to)
    {
      if stage == to { return true; }
      if !L.CanTransition(stage, to) { return false; }
      stage := to;
      ok := true;
    }

    method BeginVerification() returns (r: L.Outcome)
      requires Valid()
      modifies this`stage
      ensures Valid() && (Contents(), r) == L.BeginVerification(old(Contents()))
    {
      L.MoveAnchored(Contents(), L.VERIFYING);
      var ok := Transition(L.VERIFYING);
      r := if ok then L.Succeeded else L.Refused;
    }

    method CreateLease(id: string, seconds: nat)
      modifies this`tables, this`ownLeases
      ensures Contents() == L.WithLease(old(Contents()), id, seconds)
    {
      tables := tables.(leases := tables.leases[id := Lease(ACTIVE, now + seconds * 1000)]);
      ownLeases := ownLeases + {id};
    }

    method GrantSeed(leaseId: string, action: string, frequency: int)
      modifies this`tables
      ensures Contents() == L.WithSeed(old(Contents()), leaseId, action, frequency)
    {
      var limits := Limits(None, Some(frequency), Some(L.DAY_SECONDS), [], None);
      var c := Capability(actorId, action, "agent:" + agentId, false, limits, ACTIVE, None, Some(leaseId));
      tables := tables.(caps := tables.caps + [c]);
    }

    /** Verifying, lease, assignment, backing, two grants, service; what is written before a failure stays. */
    method EstablishAssurance(p: L.Proofs, id: string, cut: L.Cut) returns (r: L.Outcome)
      requires Valid()
      modifies this
      ensures Valid() && (Contents(), r) == L.EstablishAssurance(old(Contents()), p, id, terms, cut)
    {
      hide L.Anchored, L.WithSeed;
      L.EstablishAnchored(Contents(), p, id, terms, cut);
      if !L.ProofsOk(p) { return L.Refused; }
      if stage == L.DRAFT { var moved := Transition(L.VERIFYING); }
      if cut == L.AfterVerifying || id in tables.leases || id == "" { return L.Interrupted; }
      CreateLease(id, if p.liveness.Some? then terms.worldPlusActive else terms.worldOnly);
      if cut == L.AfterLease { return L.Interrupted; }
      lease := Some(id);
      if cut == L.AfterAssignment { return L.Interrupted; }
      var backed := Transition(L.HUMAN_BACKED);
      if !backed { return L.Refused; }
      if cut == L.AfterBacking { return L.Interrupted; }
      L.SeedKeeps(Contents(), id, "CLAIM", 10);
      GrantSeed(id, "CLAIM", 10);
      if cut == L.AfterFirstGrant { return L.Interrupted; }
      L.SeedKeeps(Contents(), id, "API_REQUEST", 100);
      GrantSeed(id, "API_REQUEST", 100);
      if cut == L.AfterGrants { return L.Interrupted; }
      var active := Transition(L.AGENT_ACTIVE);
      r := L.Succeeded;
    }

    method UpdateStanding(from: set<Status>, to: Status) returns (count: nat)
      modifies this`tables
      ensures Contents() == L.WithStanding(old(Contents()), from, to)
      ensures count == |Filter(old(tables).caps, L.HeldIn(actorId, from))|
    {
      count := |Filter(tables.caps, L.HeldIn(actorId, from))|;
      tables := tables.(caps := Moved(tables.caps, L.HeldIn(actorId, from), to));
    }

    /** Status first, then the suspension that enforces it. */
    method FreezeAgent(cut: bool) returns (r: L.Outcome, suspended: nat)
      requires Valid()
      modifies this`stage, this`tables
      ensures Valid() && (Contents(), r) == L.FreezeAgent(old(Contents()), cut)
      ensures !cut && L.Quiet(old(Contents())) ==> L.Quiet(Contents())
    {
      hide L.Anchored, L.WithStanding, L.Quiet;
      L.StepAnchored(Contents(), L.Freeze(cut), terms);
      if !cut && L.Quiet(Contents()) { L.StepQuiet(Contents(), L.Freeze(cut), terms); }
      var ok := Transition(L.FROZEN);
      if !ok { return L.Refused, 0; }
      if cut { return L.Interrupted, 0; }
      suspended := UpdateStanding({ACTIVE}, SUSPENDED);
      r := L.Succeeded;
    }

    method UnfreezeAgent(cut: bool) returns (r: L.Outcome)
      requires Valid()
      modifies this`stage, this`tables
      ensures Valid() && (Contents(), r) == L.UnfreezeAgent(old(Contents()), cut)
      ensures r == L.Succeeded ==> IsLeaseLive(L.LeaseNow(old(Contents())), now)
    {
      hide L.Anchored, L.WithStanding;
      L.StepAnchored(Contents(), L.Unfreeze(cut), terms);
      if L.UnfreezeAgent(Contents(), cut).1 != L.Refused { L.UnfreezeNeedsLiveLease(Contents(), cut); }
      if lease.Some? && lease.value != "" {
        var current := LeaseOf(tables, lease.value);
        if !IsLeaseLive(current, now) { return L.Refused; }
      }
      var ok := Transition(L.AGENT_ACTIVE);
      if !ok { return L.Refused; }
      if cut { return L.Interrupted; }
      var restored := UpdateStanding({SUSPENDED}, ACTIVE);
      r := L.Succeeded;
    }

    /** Status, capabilities, leases. */
    method RevokeAgent(cut: L.RevokeCut) returns (r: L.Outcome)
      requires Valid()
      modifies this`stage, this`tables
      ensures Valid() && (Contents(), r) == L.RevokeAgent(old(Contents()), cut)
      ensures cut != L.AfterStatus && L.Quiet(old(Contents())) ==> L.Quiet(Contents())
    {
      hide L.Anchored, L.WithStanding, L.Quiet;
      L.StepAnchored(Contents(), L.Revoke(cut), terms);
      if cut != L.AfterStatus && L.Quiet(Contents()) { L.StepQuiet(Contents(), L.Revoke(cut), terms); }
      var ok := Transition(L.AGENT_REVOKED);
      if !ok { return L.Refused; }
      if cut == L.AfterStatus { return L.Interrupted; }
      var revoked := UpdateStanding({ACTIVE, SUSPENDED}, REVOKED);
      if cut == L.AfterCapabilities { return L.Interrupted; }
      RevokeLeases();
      r := L.Succeeded;
    }

    method RevokeLeases()
      modifies this`tables
      ensures Contents() == L.WithoutLeases(old(Contents()))
    {
      var current := tables.leases;
      tables := tables.(leases := map id | id in current ::
        if id in ownLeases && current[id].status == ACTIVE then current[id].(status := REVOKED) else current[id]);
    }
  }
}
