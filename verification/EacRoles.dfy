/** Role bitmaps: seven agent actions, each in its own four-bit slot of one big integer (`eac-roles.ts`). */
module EacRoles {
  import opened Bits
  import opened Common
  import opened RuleEngine

  type Bitmap = nat

  const ADMIN_ROLE_OFFSET: nat := 128
  const MAX_REGULAR_ROLES: nat := 32

  /** A role is a slot of four bits, not a bit: slot `index` starts at bit `4 * index`. */
  function RoleBit(index: nat): Bitmap
    requires index < MAX_REGULAR_ROLES
  {
    Shl(1, 4 * index)
  }

  function AdminRoleBit(index: nat): Bitmap
    requires index < MAX_REGULAR_ROLES
  {
    Shl(RoleBit(index), ADMIN_ROLE_OFFSET)
  }

  predicate HasAllRoles(bitmap: Bitmap, required: Bitmap) { And(bitmap, required) == required }

  function WithoutRoles(bitmap: Bitmap, remove: Bitmap): Bitmap { AndNot(bitmap, remove) }

  /** The slot of an action that has an on-chain form. */
  function RoleIndex(a: ActionType): (i: Option<nat>)
    ensures i.Some? ==> 8 <= i.value < 15
  {
    match a
    case CLAIM => Some(8)
    case TRADE => Some(9)
    case TRANSFER => Some(10)
    case BORROW => Some(11)
    case API_REQUEST => Some(12)
    case VOTE => Some(13)
    case X402_PAYMENT => Some(14)
    case _ => None
  }

  predicate Supported(a: ActionType) { RoleIndex(a).Some? }

  function RoleOf(a: ActionType): Bitmap
    requires Supported(a)
  {
    RoleBit(RoleIndex(a).value)
  }

  const AGENT_ACTIONS: seq<ActionType> := [CLAIM, TRADE, TRANSFER, BORROW, API_REQUEST, VOTE, X402_PAYMENT]

  /** The first bit of an action's slot. */
  function Slot(a: ActionType): nat
    requires Supported(a)
  {
    4 * RoleIndex(a).value
  }

  /** The roles of a list of actions together; actions without one add nothing. */
  function RolesOf(actions: seq<ActionType>): Bitmap {
    if actions == [] then 0
    else
      var init, last := actions[..|actions| - 1], actions[|actions| - 1];
      if Supported(last) then Or(RolesOf(init), RoleOf(last)) else RolesOf(init)
  }

  function AllAgentRoles(): Bitmap {
    OrAll([RoleBit(8), RoleBit(9), RoleBit(10), RoleBit(11), RoleBit(12), RoleBit(13), RoleBit(14)])
  }

  /** Name management: set-subregistry and set-resolver with their admins, and the transfer admin. */
  function RegistrationRoles(): Bitmap {
    OrAll([RoleBit(0), AdminRoleBit(0), RoleBit(1), AdminRoleBit(1), AdminRoleBit(2)])
  }

  /** What an agent's name is registered with: name management, and the admin half of every agent role. */
  function AgentRegistrationRoles(): Bitmap {
    OrAll([RegistrationRoles(), AdminRoleBit(8), AdminRoleBit(9), AdminRoleBit(10), AdminRoleBit(11),
           AdminRoleBit(12), AdminRoleBit(13), AdminRoleBit(14)])
  }

  predicate HoldsAction(bitmap: Bitmap, a: ActionType) { Supported(a) && HasAllRoles(bitmap, RoleOf(a)) }

  function ActionsFromBitmap(bitmap: Bitmap): seq<ActionType> {
    Filter(AGENT_ACTIONS, (a: ActionType) => HoldsAction(bitmap, a))
  }

  /** The actions a bitmap grants, as a set. */
  ghost function Held(bitmap: Bitmap): set<ActionType> { set a: ActionType | HoldsAction(bitmap, a) }

  ghost function SupportedIn(actions: seq<ActionType>): set<ActionType> {
    set a | a in actions && Supported(a)
  }

  /** Everything outside the agent roles: name management and admin bits. */
  function OtherRoles(bitmap: Bitmap): Bitmap { WithoutRoles(bitmap, AllAgentRoles()) }

  // ---- roles are distinct bits of the agent range ----

  lemma RoleBitIs(index: nat, k: nat)
    requires index < MAX_REGULAR_ROLES
    ensures Bit(RoleBit(index), k) <==> k == 4 * index
  {
    OneShifted(4 * index, k);
  }

  lemma AdminBitIs(index: nat, k: nat)
    requires index < MAX_REGULAR_ROLES
    ensures Bit(AdminRoleBit(index), k) <==> k == 4 * index + ADMIN_ROLE_OFFSET
  {
    ShlBit(RoleBit(index), ADMIN_ROLE_OFFSET, k);
    if k >= ADMIN_ROLE_OFFSET { RoleBitIs(index, k - ADMIN_ROLE_OFFSET); }
  }

  /** The mask test of an action reads the one bit at the start of its slot. */
  lemma HoldsIsBit(bitmap: Bitmap, a: ActionType)
    requires Supported(a)
    ensures HoldsAction(bitmap, a) <==> Bit(bitmap, Slot(a))
  {
    hide RoleIndex, RoleBit, And, Bit;
    MaskCovered(bitmap, RoleOf(a));
    forall k: nat ensures Bit(RoleOf(a), k) <==> k == Slot(a) { RoleBitIs(RoleIndex(a).value, k); }
  }

  lemma SlotInjective(a: ActionType, b: ActionType)
    requires Supported(a) && Supported(b) && Slot(a) == Slot(b)
    ensures a == b
  {
  }

  ghost predicate HasSlot(actions: seq<ActionType>, bit: nat) {
    exists a :: a in actions && Supported(a) && bit == Slot(a)
  }

  lemma {:induction false} RolesOfBits(actions: seq<ActionType>, bit: nat)
    ensures Bit(RolesOf(actions), bit) <==> HasSlot(actions, bit)
  {
    hide RoleIndex, Bit, Or, RoleBit;
    if actions == [] {
      ZeroBit(bit);
    } else {
      var init, last := actions[..|actions| - 1], actions[|actions| - 1];
      assert actions == init + [last];
      RolesOfBits(init, bit);
      assert last in actions && forall a | a in init :: a in actions;
      if Supported(last) {
        OrBit(RolesOf(init), RoleOf(last), bit);
        RoleBitIs(RoleIndex(last).value, bit);
      }
    }
  }

  /** An action's role is among those of a list exactly when the action is. */
  lemma RoleInList(actions: seq<ActionType>, a: ActionType)
    requires Supported(a)
    ensures Bit(RolesOf(actions), Slot(a)) <==> a in actions
  {
    hide RolesOf, Bit, Slot;
    RolesOfBits(actions, Slot(a));
    forall b | b in actions && Supported(b) && Slot(b) == Slot(a) ensures b == a { SlotInjective(a, b); }
  }

  ghost predicate AgentSlot(k: nat) { k % 4 == 0 && 32 <= k <= 56 }

  lemma ActionSlots(k: nat)
    ensures HasSlot(AGENT_ACTIONS, k) <==> AgentSlot(k)
  {
    if AgentSlot(k) {
      var a := AGENT_ACTIONS[k / 4 - 8];
      assert a in AGENT_ACTIONS && k == Slot(a);
    }
  }

  lemma AllAgentBits(k: nat)
    ensures Bit(AllAgentRoles(), k) <==> AgentSlot(k)
  {
    hide Bit, RoleBit, OrAll;
    var roles := [RoleBit(8), RoleBit(9), RoleBit(10), RoleBit(11), RoleBit(12), RoleBit(13), RoleBit(14)];
    OrAllBit(roles, k);
    forall i | 8 <= i < 15 ensures Bit(RoleBit(i), k) <==> k == 4 * i { RoleBitIs(i, k); }
    assert forall i | 8 <= i < 15 :: roles[i - 8] == RoleBit(i);
    if AgentSlot(k) { assert roles[k / 4 - 8] in roles; }
  }

  lemma InTable(a: ActionType)
    ensures a in AGENT_ACTIONS <==> Supported(a)
  {
  }

  /** The roles of any list lie inside the agent roles; there are none exactly when no action has one. */
  lemma RolesInside(actions: seq<ActionType>)
    ensures Covers(AllAgentRoles(), RolesOf(actions))
    ensures RolesOf(actions) == 0 <==> SupportedIn(actions) == {}
  {
    hide RolesOf, Bit, RoleIndex, AllAgentRoles, Slot;
    forall k: nat
      ensures Bit(RolesOf(actions), k) <==> HasSlot(actions, k)
      ensures Bit(AllAgentRoles(), k) <==> HasSlot(AGENT_ACTIONS, k)
    {
      RolesOfBits(actions, k);
      AllAgentBits(k);
      ActionSlots(k);
    }
    forall a: ActionType ensures a in AGENT_ACTIONS <==> Supported(a) { InTable(a); }
    NoBits(RolesOf(actions));
    if RolesOf(actions) != 0 {
      var k: nat :| Bit(RolesOf(actions), k);
      var a :| a in actions && Supported(a) && k == Slot(a);
      assert a in SupportedIn(actions);
    }
    if a :| a in SupportedIn(actions) { assert HasSlot(actions, Slot(a)); }
  }

  // ---- lists of roles are sets of actions ----

  /** Or-ing a list of roles in adds exactly the supported actions in it and touches no other bit. */
  lemma GrantList(b: Bitmap, actions: seq<ActionType>)
    ensures Held(Or(b, RolesOf(actions))) == Held(b) + SupportedIn(actions)
    ensures OtherRoles(Or(b, RolesOf(actions))) == OtherRoles(b)
  {
    hide RolesOf, HoldsAction, RoleIndex, Bit, Or, AndNot, AllAgentRoles, Slot;
    RolesInside(actions);
    var after := Or(b, RolesOf(actions));
    forall a: ActionType ensures a in Held(after) <==> a in Held(b) + SupportedIn(actions) {
      HeldSupported(b, a);
      HeldSupported(after, a);
      if Supported(a) {
        HoldsIsBit(b, a);
        HoldsIsBit(after, a);
        OrBit(b, RolesOf(actions), Slot(a));
        RoleInList(actions, a);
      }
    }
    forall k: nat ensures Bit(OtherRoles(after), k) == Bit(OtherRoles(b), k) {
      AndNotBit(after, AllAgentRoles(), k);
      AndNotBit(b, AllAgentRoles(), k);
      OrBit(b, RolesOf(actions), k);
    }
    SameBits(OtherRoles(after), OtherRoles(b));
  }

  lemma HeldSupported(b: Bitmap, a: ActionType)
    ensures a in Held(b) ==> Supported(a)
  {
  }

  /** Masking a list of roles out removes exactly the actions in it and touches no other bit. */
  lemma RevokeList(b: Bitmap, actions: seq<ActionType>)
    ensures Held(WithoutRoles(b, RolesOf(actions))) == Held(b) - SupportedIn(actions)
    ensures OtherRoles(WithoutRoles(b, RolesOf(actions))) == OtherRoles(b)
  {
    hide RolesOf, HoldsAction, RoleIndex, Bit, AndNot, AllAgentRoles, Slot;
    RolesInside(actions);
    var after := WithoutRoles(b, RolesOf(actions));
    forall a: ActionType ensures a in Held(after) <==> a in Held(b) - SupportedIn(actions) {
      HeldSupported(b, a);
      HeldSupported(after, a);
      if Supported(a) {
        HoldsIsBit(b, a);
        HoldsIsBit(after, a);
        AndNotBit(b, RolesOf(actions), Slot(a));
        RoleInList(actions, a);
      }
    }
    forall k: nat ensures Bit(OtherRoles(after), k) == Bit(OtherRoles(b), k) {
      AndNotBit(after, AllAgentRoles(), k);
      AndNotBit(b, AllAgentRoles(), k);
      AndNotBit(b, RolesOf(actions), k);
    }
    SameBits(OtherRoles(after), OtherRoles(b));
  }

  /** What a freeze clears is the roles of all seven actions: one bit in each of slots 8 to 14. */
  lemma AllAgentRolesMeans()
    ensures RolesOf(AGENT_ACTIONS) == AllAgentRoles() == 0x0111_1111_0000_0000
    ensures SupportedIn(AGENT_ACTIONS) == set a: ActionType | Supported(a)
  {
    hide RolesOf, AllAgentRoles, Bit;
    forall k: nat ensures Bit(RolesOf(AGENT_ACTIONS), k) == Bit(AllAgentRoles(), k) {
      RolesOfBits(AGENT_ACTIONS, k);
      AllAgentBits(k);
      ActionSlots(k);
    }
    SameBits(RolesOf(AGENT_ACTIONS), AllAgentRoles());
    AllAgentRolesValue();
  }

  /** Each slot is sixteen times the one below it. */
  lemma NextRole(index: nat)
    requires index + 1 < MAX_REGULAR_ROLES
    ensures RoleBit(index + 1) == 16 * RoleBit(index)
  {
    var k := 4 * index;
    assert Shl(1, k + 4) == 2 * Shl(1, k + 3) && Shl(1, k + 3) == 2 * Shl(1, k + 2);
    assert Shl(1, k + 2) == 2 * Shl(1, k + 1) && Shl(1, k + 1) == 2 * Shl(1, k);
  }

  /** The roles from `first` on, `count` of them. */
  function Run(first: nat, count: nat): seq<Bitmap>
    requires first + count <= MAX_REGULAR_ROLES
  {
    if count == 0 then [] else Run(first, count - 1) + [RoleBit(first + count - 1)]
  }

  lemma {:induction false} RunBits(first: nat, count: nat, k: nat)
    requires first + count <= MAX_REGULAR_ROLES && Bit(OrAll(Run(first, count)), k)
    ensures k < 4 * (first + count)
  {
    if count == 0 {
      ZeroBit(k);
    } else {
      OrBit(OrAll(Run(first, count - 1)), RoleBit(first + count - 1), k);
      RoleBitIs(first + count - 1, k);
      if Bit(OrAll(Run(first, count - 1)), k) { RunBits(first, count - 1, k); }
    }
  }

  /** Consecutive roles share no bit, so or-ing one more in adds it. */
  lemma RunAdds(first: nat, count: nat)
    requires first + count < MAX_REGULAR_ROLES
    ensures OrAll(Run(first, count + 1)) == OrAll(Run(first, count)) + RoleBit(first + count)
  {
    hide Bit, RoleBit, Or;
    var init, last := Run(first, count), RoleBit(first + count);
    forall k: nat ensures !(Bit(OrAll(init), k) && Bit(last, k)) {
      RoleBitIs(first + count, k);
      if Bit(OrAll(init), k) { RunBits(first, count, k); }
    }
    OrDisjoint(OrAll(init), last);
  }

  lemma FirstRoles()
    ensures RoleBit(8) == 0x1_0000_0000
    ensures OrAll(Run(8, 0)) == 0
  {
    assert RoleBit(0) == 1;
    hide RoleBit;
    NextRole(0); NextRole(1); NextRole(2); NextRole(3); NextRole(4); NextRole(5); NextRole(6); NextRole(7);
  }

  lemma AllAgentRolesValue()
    ensures AllAgentRoles() == 0x0111_1111_0000_0000
  {
    hide RoleBit, OrAll;
    FirstRoles();
    NextRole(8); NextRole(9); NextRole(10); NextRole(11); NextRole(12); NextRole(13);
    RunAdds(8, 0); RunAdds(8, 1); RunAdds(8, 2); RunAdds(8, 3); RunAdds(8, 4); RunAdds(8, 5); RunAdds(8, 6);
    assert Run(8, 7)
        == [RoleBit(8), RoleBit(9), RoleBit(10), RoleBit(11), RoleBit(12), RoleBit(13), RoleBit(14)];
  }

  /** Reading a bitmap lists exactly the held actions. */
  lemma ActionsReadBack(bitmap: Bitmap, a: ActionType)
    ensures a in ActionsFromBitmap(bitmap) <==> a in Held(bitmap)
  {
    hide Filter, HasAllRoles, RoleOf, RoleIndex;
    InTable(a);
  }

  lemma RegistrationBits(bit: nat)
    requires Bit(AgentRegistrationRoles(), bit)
    ensures bit < 8 || bit >= ADMIN_ROLE_OFFSET
  {
    hide Bit, RoleBit, AdminRoleBit, OrAll;
    OrAllBit([RegistrationRoles(), AdminRoleBit(8), AdminRoleBit(9), AdminRoleBit(10), AdminRoleBit(11),
              AdminRoleBit(12), AdminRoleBit(13), AdminRoleBit(14)], bit);
    OrAllBit([RoleBit(0), AdminRoleBit(0), RoleBit(1), AdminRoleBit(1), AdminRoleBit(2)], bit);
    forall i | 0 <= i < MAX_REGULAR_ROLES
      ensures Bit(RoleBit(i), bit) <==> bit == 4 * i
      ensures Bit(AdminRoleBit(i), bit) <==> bit == 4 * i + ADMIN_ROLE_OFFSET
    {
      RoleBitIs(i, bit);
      AdminBitIs(i, bit);
    }
  }

  /**
   * Every bit an agent's name is registered with: the roles to set its subregistry and its resolver, the admin halves
   * of both and of its transfer, and the admin halves of the seven agent roles.
   */
  lemma RegistrationExact(bit: nat)
    ensures Bit(AgentRegistrationRoles(), bit) <==>
      bit in {0, 4, 128, 132, 136, 160, 164, 168, 172, 176, 180, 184}
  {
    hide Bit, RoleBit, AdminRoleBit, OrAll;
    var base := [RoleBit(0), AdminRoleBit(0), RoleBit(1), AdminRoleBit(1), AdminRoleBit(2)];
    var all := [RegistrationRoles(), AdminRoleBit(8), AdminRoleBit(9), AdminRoleBit(10), AdminRoleBit(11),
                AdminRoleBit(12), AdminRoleBit(13), AdminRoleBit(14)];
    OrAllBit(base, bit);
    OrAllBit(all, bit);
    RoleBitIs(0, bit);
    RoleBitIs(1, bit);
    forall i | 0 <= i < 32 ensures Bit(AdminRoleBit(i), bit) <==> bit == 4 * i + 128 { AdminBitIs(i, bit); }
    assert base[0] in base && base[1] in base && base[2] in base && base[3] in base && base[4] in base;
    assert all[0] in all && all[1] in all && all[2] in all && all[3] in all;
    assert all[4] in all && all[5] in all && all[6] in all && all[7] in all;
  }

  /** A freshly registered name holds no agent action, and all it holds lies outside the agent roles. */
  lemma RegistrationHoldsNoAction()
    ensures Held(AgentRegistrationRoles()) == {}
    ensures OtherRoles(AgentRegistrationRoles()) == AgentRegistrationRoles()
  {
    hide AgentRegistrationRoles, Bit, AllAgentRoles, AndNot;
    var b := AgentRegistrationRoles();
    forall k: nat ensures Bit(OtherRoles(b), k) == Bit(b, k) {
      AndNotBit(b, AllAgentRoles(), k);
      AllAgentBits(k);
      if Bit(b, k) { RegistrationBits(k); }
    }
    SameBits(OtherRoles(b), b);
    forall a: ActionType | Supported(a) ensures !HoldsAction(b, a) {
      HoldsIsBit(b, a);
      if Bit(b, Slot(a)) { RegistrationBits(Slot(a)); }
    }
  }
}
