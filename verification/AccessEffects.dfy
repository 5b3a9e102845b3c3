/**
  What each call of the role module comes to: when it succeeds, with which error it
  fails otherwise, and who has which role afterwards.
 */
module AccessEffects {
  import opened Options
  import opened AccessControl

  predicate Owns(s: State, a: Address) { s.owner == Some(a) }

  predicate Admin(s: State, a: Address) { s.admins.Some? && a in s.admins.value }

  predicate Operator(s: State, a: Address) { s.operators.Some? && a in s.operators.value }

  predicate SameOwner(s: State, t: State) { t.owner == s.owner }

  ghost predicate SameAdmins(s: State, t: State) { forall a :: Admin(t, a) <==> Admin(s, a) }

  ghost predicate SameOperators(s: State, t: State) { forall a :: Operator(t, a) <==> Operator(s, a) }

  /** The set of admins has gained the address, or lost it. */
  ghost predicate Promoted(s: State, t: State, target: Address) {
    && SameOwner(s, t) && SameOperators(s, t) && t.events == s.events + [AdminGranted(target)]
    && forall a :: Admin(t, a) <==> Admin(s, a) || a == target
  }

  ghost predicate Demoted(s: State, t: State, target: Address) {
    && SameOwner(s, t) && SameOperators(s, t) && t.events == s.events + [AdminRevoked(target)]
    && forall a :: Admin(t, a) <==> Admin(s, a) && a != target
  }

  ghost predicate HandedOver(s: State, t: State, target: Address) {
    && Owns(t, target) && SameAdmins(s, t) && SameOperators(s, t)
    && s.owner.Some? && t.events == s.events + [OwnershipTransferred(target, s.owner.value)]
  }

  lemma InitOwnerDoes(s: State, owner: Address)
    ensures var (t, r) := Perform(s, InitOwner(owner));
            && r == (if s.owner.Some? then Err(NotInitialized) else Ok)
            && (r != Ok ==> t == s)
            && (r == Ok ==> Owns(t, owner) && t.events == s.events && forall a :: !Admin(t, a) && !Operator(t, a))
  {
  }

  /** The owner makes an admin of anybody who is none, and nobody else does. */
  lemma GrantAdminDoes(s: State, caller: Address, target: Address, signed: bool)
    ensures var (t, r) := Perform(s, GrantAdmin(caller, target, signed));
            && r == (if !signed then Trap
                     else if s.owner.None? then Err(NotInitialized)
                     else if !Owns(s, caller) then Err(NotOwner)
                     else if Admin(s, target) then Err(AlreadyAdmin)
                     else Ok)
            && (if r == Ok then Promoted(s, t, target) else t == s)
  {
  }

  /** Nobody but the target is an admin. */
  ghost predicate OnlyAdmin(s: State, target: Address) {
    forall a | Admin(s, a) :: a == target
  }

  /** The owner removes any admin but the owner, and never the last one. */
  lemma RevokeAdminDoes(s: State, caller: Address, target: Address, signed: bool)
    ensures var (t, r) := Perform(s, RevokeAdmin(caller, target, signed));
            && r == (if !signed then Trap
                     else if s.owner.None? then Err(NotInitialized)
                     else if !Owns(s, caller) then Err(NotOwner)
                     else if caller == target then Err(CannotDemoteOwner)
                     else if !Admin(s, target) then Err(NotAdmin)
                     else if OnlyAdmin(s, target) then Err(CannotRevokeLastAdmin)
                     else Ok)
            && (if r == Ok then Demoted(s, t, target)
                else if r == Err(CannotRevokeLastAdmin) then t == s.(events := s.events + [GovernanceInvariant(caller)])
                else t == s)
  {
    if Admin(s, target) { LastAdmin(s, target); }
  }

  lemma LastAdmin(s: State, target: Address)
    requires Admin(s, target)
    ensures |SetOf(s.admins)| <= 1 <==> OnlyAdmin(s, target)
  {
    var admins := s.admins.value;
    assert admins == {target} + (admins - {target});
    if a :| Admin(s, a) && a != target { assert a in admins - {target}; }
    if OnlyAdmin(s, target) {
      forall a | a in admins ensures a == target { assert Admin(s, a); }
      assert admins == {target};
    }
  }

  /** The owner hands the contract to anybody else. */
  lemma TransferOwnershipDoes(s: State, caller: Address, target: Address, signed: bool)
    ensures var (t, r) := Perform(s, TransferOwnership(caller, target, signed));
            && r == (if !signed then Trap
                     else if s.owner.None? then Err(NotInitialized)
                     else if !Owns(s, caller) then Err(NotOwner)
                     else if caller == target then Err(InvalidOwnershipTransfer)
                     else Ok)
            && (if r == Ok then HandedOver(s, t, target) else t == s)
  {
  }

  /** The owner and every admin make operators, and unmake them. */
  lemma GrantOperatorDoes(s: State, caller: Address, target: Address, signed: bool)
    ensures var (t, r) := Perform(s, GrantOperator(caller, target, signed));
            && r == (if !signed then Trap
                     else if s.owner.None? then Err(NotInitialized)
                     else if !Owns(s, caller) && !Admin(s, caller) then Err(NotAuthorized)
                     else if Operator(s, target) then Err(AlreadyOperator)
                     else Ok)
            && (r != Ok ==> t == s)
            && (r == Ok ==>
                  && SameOwner(s, t) && SameAdmins(s, t) && t.events == s.events
                  && forall a :: Operator(t, a) <==> Operator(s, a) || a == target)
  {
  }

  lemma RevokeOperatorDoes(s: State, caller: Address, target: Address, signed: bool)
    ensures var (t, r) := Perform(s, RevokeOperator(caller, target, signed));
            && r == (if !signed then Trap
                     else if s.owner.None? then Err(NotInitialized)
                     else if !Owns(s, caller) && !Admin(s, caller) then Err(NotAuthorized)
                     else if !Operator(s, target) then Err(NotOperator)
                     else Ok)
            && (r != Ok ==> t == s)
            && (r == Ok ==>
                  && SameOwner(s, t) && SameAdmins(s, t) && t.events == s.events
                  && forall a :: Operator(t, a) <==> Operator(s, a) && a != target)
  {
  }

  /** What an action needs to go through. */
  ghost predicate Possible(s: State, action: Action) {
    match action
    case ToGrant(target) => !Admin(s, target)
    case ToRevoke(target) => !Owns(s, target) && Admin(s, target) && !OnlyAdmin(s, target)
    case ToTransfer(target) => !Owns(s, target)
  }

  /**
    A proposal takes effect exactly when it is due, the executor signed and is the
    owner or an admin, and its action can go through; otherwise nothing happens.
   */
  lemma ExecuteDoes(s: State, executor: Address, signed: bool, proposer: Address, action: Action, due: bool)
    ensures var (t, r) := Perform(s, Call.Execute(executor, signed, proposer, action, due));
            && (r == Ok <==> due && signed && s.owner.Some? && (Owns(s, executor) || Admin(s, executor)) && Possible(s, action))
            && (r != Ok ==> r == Trap && t == s)
            && (r == Ok ==>
                  match action
                  case ToGrant(target) => Promoted(s, t, target)
                  case ToRevoke(target) => Demoted(s, t, target)
                  case ToTransfer(target) => HandedOver(s, t, target))
  {
    match action
    case ToRevoke(target) => if Admin(s, target) { LastAdmin(s, target); }
    case _ =>
  }
}
