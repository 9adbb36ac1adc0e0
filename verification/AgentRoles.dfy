/** Granting and revoking an agent's roles on its name, one transaction at a time (`agent-identity.ts`). */
module AgentRoles {
  import opened Bits
  import opened Common
  import opened RuleEngine
  import opened EacRoles

  type Label = string

  /** A revocation of no actions is a revocation of all of them. */
  function RevokedBy(actions: seq<ActionType>): seq<ActionType> {
    if actions == [] then AGENT_ACTIONS else actions
  }

  datatype Op = Grant(actions: seq<ActionType>) | Revoke(actions: seq<ActionType>)

  function Written(b: Bitmap, op: Op): Bitmap {
    match op
    case Grant(actions) => Or(b, RolesOf(actions))
    case Revoke(actions) => WithoutRoles(b, RolesOf(RevokedBy(actions)))
  }

  function WrittenAll(b: Bitmap, ops: seq<Op>): Bitmap {
    if ops == [] then b else Written(WrittenAll(b, ops[..|ops| - 1]), ops[|ops| - 1])
  }

  /** Granted by some operation, and by none after it revoked. */
  ghost predicate Standing(ops: seq<Op>, a: ActionType) {
    exists k :: 0 <= k < |ops| && GrantedAt(ops, k, a) && NotRevokedAfter(ops, k, a)
  }

  predicate GrantedAt(ops: seq<Op>, k: nat, a: ActionType)
    requires k < |ops|
  {
    ops[k].Grant? && a in ops[k].actions
  }

  predicate NotRevokedAfter(ops: seq<Op>, k: nat, a: ActionType) {
    forall j | k < j < |ops| :: ops[j].Revoke? ==> a !in RevokedBy(ops[j].actions)
  }

  predicate NeverRevoked(ops: seq<Op>, a: ActionType) {
    forall j | 0 <= j < |ops| :: ops[j].Revoke? ==> a !in RevokedBy(ops[j].actions)
  }

  predicate Survives(op: Op, a: ActionType) { op.Revoke? ==> a !in RevokedBy(op.actions) }

  lemma NotRevokedStep(ops: seq<Op>, op: Op, k: nat, a: ActionType)
    requires k < |ops|
    ensures NotRevokedAfter(ops + [op], k, a) <==> NotRevokedAfter(ops, k, a) && Survives(op, a)
  {
    hide RevokedBy;
    var all := ops + [op];
    assert all[|ops|] == op && forall j | 0 <= j < |ops| :: all[j] == ops[j];
    if NotRevokedAfter(all, k, a) {
      forall j | k < j < |ops| ensures ops[j].Revoke? ==> a !in RevokedBy(ops[j].actions) {
        assert all[j].Revoke? ==> a !in RevokedBy(all[j].actions);
      }
    }
  }

  lemma NeverRevokedStep(ops: seq<Op>, op: Op, a: ActionType)
    ensures NeverRevoked(ops + [op], a) <==> NeverRevoked(ops, a) && Survives(op, a)
  {
    hide RevokedBy;
    var all := ops + [op];
    assert all[|ops|] == op && forall j | 0 <= j < |ops| :: all[j] == ops[j];
    if NeverRevoked(all, a) {
      forall j | 0 <= j < |ops| ensures ops[j].Revoke? ==> a !in RevokedBy(ops[j].actions) {
        assert all[j].Revoke? ==> a !in RevokedBy(all[j].actions);
      }
    }
  }

  lemma StandingStep(ops: seq<Op>, op: Op, a: ActionType)
    ensures Standing(ops + [op], a) <==>
      if op.Grant? then Standing(ops, a) || a in op.actions
      else Standing(ops, a) && a !in RevokedBy(op.actions)
  {
    hide RevokedBy, NotRevokedAfter;
    var all, n := ops + [op], |ops|;
    forall k | 0 <= k < n
      ensures GrantedAt(all, k, a) <==> GrantedAt(ops, k, a)
      ensures NotRevokedAfter(all, k, a) <==> NotRevokedAfter(ops, k, a) && Survives(op, a)
    {
      NotRevokedStep(ops, op, k, a);
    }
    NothingAfterLast(all, n, a);
    assert GrantedAt(all, n, a) <==> op.Grant? && a in op.actions;
    if Standing(ops, a) && Survives(op, a) {
      var k :| 0 <= k < n && GrantedAt(ops, k, a) && NotRevokedAfter(ops, k, a);
      assert GrantedAt(all, k, a);
    }
    if Standing(all, a) && !GrantedAt(all, n, a) {
      var k :| 0 <= k < |all| && GrantedAt(all, k, a) && NotRevokedAfter(all, k, a);
      assert k < n && GrantedAt(ops, k, a);
    }
  }

  lemma NothingAfterLast(ops: seq<Op>, n: nat, a: ActionType)
    requires n + 1 == |ops|
    ensures NotRevokedAfter(ops, n, a)
  {
  }

  /**
   * After any sequence of grants and revocations the map reads back exactly the supported actions
   * that were held or granted and not since revoked; no other bit was touched.
   */
  lemma {:induction false} RolesFollowHistory(b: Bitmap, ops: seq<Op>, a: ActionType)
    ensures a in ActionsFromBitmap(WrittenAll(b, ops)) <==>
      Supported(a) && (Standing(ops, a) || (a in Held(b) && NeverRevoked(ops, a)))
    ensures OtherRoles(WrittenAll(b, ops)) == OtherRoles(b)
  {
    hide ActionsFromBitmap, Held, Standing, NeverRevoked, OtherRoles, WithoutRoles, RolesOf, Supported;
    ActionsReadBack(WrittenAll(b, ops), a);
    if ops == [] {
      NoHistory(a);
      HeldMeansSupported(b, a);
    } else {
      var init, op := ops[..|ops| - 1], ops[|ops| - 1];
      assert ops == init + [op];
      RolesFollowHistory(b, init, a);
      ActionsReadBack(WrittenAll(b, init), a);
      StandingStep(init, op, a);
      NeverRevokedStep(init, op, a);
      WrittenHeld(WrittenAll(b, init), op, a);
    }
  }

  lemma NoHistory(a: ActionType)
    ensures !Standing([], a) && NeverRevoked([], a)
  {
  }

  lemma HeldMeansSupported(b: Bitmap, a: ActionType)
    ensures a in Held(b) ==> Supported(a)
  {
  }

  lemma WrittenHeld(b: Bitmap, op: Op, a: ActionType)
    ensures a in Held(Written(b, op)) <==>
      if op.Grant? then a in Held(b) || (Supported(a) && a in op.actions)
      else a in Held(b) && a !in RevokedBy(op.actions)
    ensures OtherRoles(Written(b, op)) == OtherRoles(b)
  {
    hide Held, OtherRoles, WithoutRoles, RolesOf, Supported;
    match op
    case Grant(actions) => GrantList(b, actions);
    case Revoke(actions) =>
      RevokeList(b, RevokedBy(actions));
      HeldMeansSupported(b, a);
  }

  /** From registration on, the agent may do exactly what was granted and not since revoked. */
  lemma AgentHoldsWhatStands(ops: seq<Op>, a: ActionType)
    ensures a in ActionsFromBitmap(WrittenAll(AgentRegistrationRoles(), ops)) <==> Supported(a) && Standing(ops, a)
    ensures OtherRoles(WrittenAll(AgentRegistrationRoles(), ops)) == AgentRegistrationRoles()
  {
    hide ActionsFromBitmap, AgentRegistrationRoles, Held, OtherRoles, WrittenAll, Standing;
    RegistrationHoldsNoAction();
    RolesFollowHistory(AgentRegistrationRoles(), ops, a);
  }

  // ---- the registry ----

  predicate Unsupported(a: ActionType) { !Supported(a) }

  lemma NothingCollected()
    ensures RolesOf([]) == 0 && Filter([], Supported) == [] && Filter([], Unsupported) == []
  {
  }

  /** One more action: its bit, or its place among the unsupported. */
  lemma CollectStep(actions: seq<ActionType>, k: nat)
    requires k < |actions|
    ensures
      var a, before, after := actions[k], actions[..k], actions[..k + 1];
      && RolesOf(after) == (if Supported(a) then Or(RolesOf(before), RoleOf(a)) else RolesOf(before))
      && Filter(after, Supported) == Filter(before, Supported) + (if Supported(a) then [a] else [])
      && Filter(after, Unsupported) == Filter(before, Unsupported) + (if Supported(a) then [] else [a])
  {
    hide RoleOf, RoleIndex;
    var a := actions[k];
    PrefixStep(actions, k);
    FilterAppend(actions[..k], [a], Supported);
    FilterAppend(actions[..k], [a], Unsupported);
    assert actions[..k + 1][..k] == actions[..k];
    assert [a][1..] == [];
  }

  class Registry {
    /** The role bits of the one operator account that holds every agent's roles. */
    var roles: map<Label, Bitmap>

    constructor ()
      ensures roles == map[]
    {
      roles := map[];
    }

    function RolesAt(name: Label): Bitmap
      reads this
    {
      if name in roles then roles[name] else 0
    }

    /** The bits of the supported actions, and the actions sorted by whether they have one. */
    method Collect(actions: seq<ActionType>)
      returns (bitmap: Bitmap, supported: seq<ActionType>, unsupported: seq<ActionType>)
      ensures bitmap == RolesOf(actions)
      ensures supported == Filter(actions, Supported) && unsupported == Filter(actions, Unsupported)
    {
      hide Filter, RoleOf, Supported;
      NothingCollected();
      bitmap, supported, unsupported := 0, [], [];
      for k := 0 to |actions|
        invariant bitmap == RolesOf(actions[..k])
        invariant supported == Filter(actions[..k], Supported) && unsupported == Filter(actions[..k], Unsupported)
      {
        var action := actions[k];
        CollectStep(actions, k);
        if Supported(action) {
          bitmap, supported := Or(bitmap, RoleOf(action)), supported + [action];
        } else {
          unsupported := unsupported + [action];
        }
      }
      assert actions[..|actions|] == actions;
    }

    /** One transaction, or none when no action has a role; `lands` says whether the chain accepts it. */
    method GrantAgentRoles(name: Label, actions: seq<ActionType>, lands: bool)
      returns (sent: bool, granted: seq<ActionType>, unsupported: seq<ActionType>)
      modifies this
      ensures granted == Filter(actions, Supported) && unsupported == Filter(actions, Unsupported)
      ensures sent <==> SupportedIn(actions) != {}
      ensures roles ==
        if sent && lands then old(roles)[name := Written(old(RolesAt(name)), Grant(actions))] else old(roles)
      ensures lands ==> Held(RolesAt(name)) == old(Held(RolesAt(name))) + SupportedIn(actions)
      ensures OtherRoles(RolesAt(name)) == old(OtherRoles(RolesAt(name)))
      ensures name !in old(roles) ==>
        Held(RolesAt(name)) == (if lands then SupportedIn(actions) else {}) && OtherRoles(RolesAt(name)) == 0
    {
      NothingHeld();
      hide Held, OtherRoles, RolesOf;
      var bitmap;
      bitmap, granted, unsupported := Collect(actions);
      RolesInside(actions);
      GrantList(RolesAt(name), actions);
      sent := bitmap != 0;
      if sent && lands { roles := roles[name := Or(RolesAt(name), bitmap)]; }
    }

    /** Always a transaction: for no actions, the one that clears every agent role. */
    method RevokeAgentRoles(name: Label, actions: seq<ActionType>, lands: bool) returns (revoked: seq<ActionType>)
      modifies this
      ensures revoked == Filter(RevokedBy(actions), Supported)
      ensures roles == if lands then old(roles)[name := Written(old(RolesAt(name)), Revoke(actions))] else old(roles)
      ensures lands ==> Held(RolesAt(name)) == old(Held(RolesAt(name))) - SupportedIn(RevokedBy(actions))
      ensures lands && actions == [] ==> Held(RolesAt(name)) == {}
      ensures OtherRoles(RolesAt(name)) == old(OtherRoles(RolesAt(name)))
    {
      hide Held, OtherRoles, RolesOf, Filter, SupportedIn, WithoutRoles;
      AllAgentRolesMeans();
      AllSupported();
      var bitmap;
      bitmap, revoked := AllAgentRoles(), ActionsFromBitmap(AllAgentRoles());
      if |actions| > 0 {
        var unsupported;
        bitmap, revoked, unsupported := Collect(actions);
      }
      RevokeList(RolesAt(name), RevokedBy(actions));
      HeldWithin(RolesAt(name));
      if lands { roles := roles[name := WithoutRoles(RolesAt(name), bitmap)]; }
    }
  }

  /** Every action anybody can hold is one of the seven. */
  lemma HeldWithin(b: Bitmap)
    ensures Held(b) <= SupportedIn(AGENT_ACTIONS)
  {
    forall a | a in Held(b) ensures a in SupportedIn(AGENT_ACTIONS) { HeldSupported(b, a); }
  }

  lemma NothingHeld()
    ensures Held(0) == {} && OtherRoles(0) == 0
  {
    forall a ensures !HoldsAction(0, a) {
      if Supported(a) {
        HoldsIsBit(0, a);
        ZeroBit(Slot(a));
      }
    }
    forall k: nat ensures Bit(OtherRoles(0), k) == Bit(0, k) {
      AndNotBit(0, AllAgentRoles(), k);
      ZeroBit(k);
    }
    SameBits(OtherRoles(0), 0);
  }

  lemma AllSupported()
    ensures Filter(AGENT_ACTIONS, Supported) == AGENT_ACTIONS
    ensures ActionsFromBitmap(AllAgentRoles()) == AGENT_ACTIONS
  {
    KeepsAll(AGENT_ACTIONS, Supported);
    AllAgentRolesMeans();
    forall a | a in AGENT_ACTIONS ensures HoldsAction(AllAgentRoles(), a) {
      HoldsIsBit(AllAgentRoles(), a);
      RoleInList(AGENT_ACTIONS, a);
    }
    KeepsAll(AGENT_ACTIONS, (a: ActionType) => HoldsAction(AllAgentRoles(), a));
  }

  lemma {:induction false} KeepsAll(actions: seq<ActionType>, keep: ActionType -> bool)
    requires forall a | a in actions :: keep(a)
    ensures Filter(actions, keep) == actions
  {
    if actions != [] {
      assert actions[0] in actions;
      KeepsAll(actions[1..], keep);
      assert actions == [actions[0]] + actions[1..];
    }
  }
}
