/**
  The role module of the contracts: one owner, a set of admins, a set of
  operators, and the events that role changes emit.

  Each call runs to its end; a missing signature traps, which undoes the call.
 */
module AccessControl {
  import opened Options

  type Address = nat

  datatype AccessError =
    | NotOwner | NotAuthorized | AlreadyAdmin | NotAdmin | NotInitialized
    | CannotDemoteOwner | CannotRevokeLastAdmin | InvalidOwnershipTransfer
    | AlreadyOperator | NotOperator

  datatype Role = OwnerRole | AdminRole | OperatorRole

  datatype Event =
    | AdminGranted(address: Address)
    | AdminRevoked(address: Address)
    | OwnershipTransferred(newOwner: Address, previousOwner: Address)
    | GovernanceInvariant(caller: Address)

  datatype Outcome = Ok | Err(error: AccessError) | Trap

  datatype State = State(
    owner: Option<Address>,
    admins: Option<set<Address>>,
    operators: Option<set<Address>>,
    events: seq<Event>)

  datatype Call =
    | InitOwner(owner: Address)
    | GrantAdmin(caller: Address, target: Address, signed: bool)
    | RevokeAdmin(caller: Address, target: Address, signed: bool)
    | TransferOwnership(caller: Address, target: Address, signed: bool)
    | GrantOperator(caller: Address, target: Address, signed: bool)
    | RevokeOperator(caller: Address, target: Address, signed: bool)
    // A proposal that governance executes; `due` tells that it is open and has its quorum.
    | Execute(executor: Address, signed: bool, proposer: Address, action: Action, due: bool)

  /** The proposals that change roles. */
  datatype Action = ToGrant(target: Address) | ToRevoke(target: Address) | ToTransfer(target: Address)

  // ---- What every call does ------------------------------------------------

  function SetOf(s: Option<set<Address>>): set<Address> {
    if s.Some? then s.value else {}
  }

  predicate Authorized(s: State, a: Address) {
    s.owner == Some(a) || a in SetOf(s.admins)
  }

  function Emit(s: State, e: Event): State {
    s.(events := s.events + [e])
  }

  function Init(s: State, owner: Address): (State, Outcome) {
    if s.owner.Some? then (s, Err(NotInitialized))
    else (s.(owner := Some(owner), admins := Some({}), operators := Some({})), Ok)
  }

  function RequireOwner(s: State, caller: Address, signed: bool): Outcome {
    if !signed then Trap
    else if s.owner.None? then Err(NotInitialized)
    else if s.owner.value != caller then Err(NotOwner)
    else Ok
  }

  function RequireAdminOrOwner(s: State, caller: Address, signed: bool): Outcome {
    if !signed then Trap
    else if s.owner.None? then Err(NotInitialized)
    else if !Authorized(s, caller) then Err(NotAuthorized)
    else Ok
  }

  function Grant(s: State, target: Address): (State, Outcome) {
    if target in SetOf(s.admins) then (s, Err(AlreadyAdmin))
    else (Emit(s.(admins := Some(SetOf(s.admins) + {target})), AdminGranted(target)), Ok)
  }

  function Revoke(s: State, target: Address, caller: Address): (State, Outcome) {
    if s.owner.None? then (s, Err(NotInitialized))
    else if s.owner.value == target then (s, Err(CannotDemoteOwner))
    else if target !in SetOf(s.admins) then (s, Err(NotAdmin))
    else if |SetOf(s.admins)| <= 1 then (Emit(s, GovernanceInvariant(caller)), Err(CannotRevokeLastAdmin))
    else (Emit(s.(admins := Some(SetOf(s.admins) - {target})), AdminRevoked(target)), Ok)
  }

  function Transfer(s: State, target: Address): (State, Outcome) {
    if s.owner.None? then (s, Err(NotInitialized))
    else if s.owner.value == target then (s, Err(InvalidOwnershipTransfer))
    else (Emit(s.(owner := Some(target)), OwnershipTransferred(target, s.owner.value)), Ok)
  }

  function AddOperator(s: State, target: Address): (State, Outcome) {
    if target in SetOf(s.operators) then (s, Err(AlreadyOperator))
    else (s.(operators := Some(SetOf(s.operators) + {target})), Ok)
  }

  function RemoveOperator(s: State, target: Address): (State, Outcome) {
    if target !in SetOf(s.operators) then (s, Err(NotOperator))
    else (s.(operators := Some(SetOf(s.operators) - {target})), Ok)
  }

  /** What a proposal does, without a check of who asks. */
  function Enact(s: State, proposer: Address, action: Action): (State, Outcome) {
    match action
    case ToGrant(target) => Grant(s, target)
    case ToRevoke(target) => Revoke(s, target, proposer)
    case ToTransfer(target) => Transfer(s, target)
  }

  /** Whoever executes must be authorized, which nobody is without an owner; every failure traps. */
  function ExecuteProposal(s: State, executor: Address, signed: bool, proposer: Address, action: Action, due: bool)
    : (State, Outcome)
  {
    if RequireAdminOrOwner(s, executor, signed) != Ok || !due then (s, Trap)
    else
      var (t, r) := Enact(s, proposer, action);
      if r == Ok then (t, Ok) else (s, Trap)
  }

  function Guarded(s: State, guard: Outcome, result: (State, Outcome)): (State, Outcome) {
    if guard == Ok then result else (s, guard)
  }

  function Perform(s: State, c: Call): (State, Outcome) {
    match c
    case InitOwner(owner) => Init(s, owner)
    case GrantAdmin(caller, target, signed) => Guarded(s, RequireOwner(s, caller, signed), Grant(s, target))
    case RevokeAdmin(caller, target, signed) => Guarded(s, RequireOwner(s, caller, signed), Revoke(s, target, caller))
    case TransferOwnership(caller, target, signed) => Guarded(s, RequireOwner(s, caller, signed), Transfer(s, target))
    case GrantOperator(caller, target, signed) =>
      Guarded(s, RequireAdminOrOwner(s, caller, signed), AddOperator(s, target))
    case RevokeOperator(caller, target, signed) =>
      Guarded(s, RequireAdminOrOwner(s, caller, signed), RemoveOperator(s, target))
    case Execute(executor, signed, proposer, action, due) => ExecuteProposal(s, executor, signed, proposer, action, due)
  }

  function Run(s: State, calls: seq<Call>): State
    decreases |calls|
  {
    if calls == [] then s else Run(Perform(s, calls[0]).0, calls[1..])
  }

  // ---- Reading the events back ---------------------------------------------

  datatype Roles = Roles(owner: Address, admins: set<Address>)

  /** What an indexer makes of one event. */
  function Follow(r: Roles, e: Event): Roles {
    match e
    case AdminGranted(a) => r.(admins := r.admins + {a})
    case AdminRevoked(a) => r.(admins := r.admins - {a})
    case OwnershipTransferred(to, _) => r.(owner := to)
    case GovernanceInvariant(_) => r
  }

  function Replay(r: Roles, events: seq<Event>): Roles
    decreases |events|
  {
    if events == [] then r else Follow(Replay(r, events[..|events| - 1]), events[|events| - 1])
  }

  /** An event that tells of a real change of the roles so far. */
  ghost predicate Honest(r: Roles, e: Event) {
    match e
    case AdminGranted(a) => a !in r.admins
    case AdminRevoked(a) => a in r.admins && a != r.owner && |r.admins| > 1
    case OwnershipTransferred(to, from) => from == r.owner && to != from
    case GovernanceInvariant(_) => |r.admins| == 1
  }

  ghost predicate AllHonest(r: Roles, events: seq<Event>) {
    forall i | 0 <= i < |events| :: Honest(Replay(r, events[..i]), events[i])
  }

  ghost predicate Told(s: State, from: Roles, seen: nat) {
    && s.owner.Some? && s.admins.Some? && seen <= |s.events|
    && Replay(from, s.events[seen..]) == Roles(s.owner.value, s.admins.value)
    && AllHonest(from, s.events[seen..])
  }

  lemma ReplaySnoc(r: Roles, events: seq<Event>, e: Event)
    ensures Replay(r, events + [e]) == Follow(Replay(r, events), e)
    ensures AllHonest(r, events) && Honest(Replay(r, events), e) ==> AllHonest(r, events + [e])
  {
    assert (events + [e])[..|events|] == events;
    forall i | 0 <= i < |events| ensures (events + [e])[..i] == events[..i] {}
  }

  function RolesOf(s: State): Roles
    requires s.owner.Some? && s.admins.Some?
  {
    Roles(s.owner.value, s.admins.value)
  }

  lemma EventIsTold(s: State, t: State, from: Roles, seen: nat, e: Event)
    requires Told(s, from, seen)
    requires t.owner.Some? && t.admins.Some? && t.events == s.events + [e]
    requires Honest(RolesOf(s), e) && Follow(RolesOf(s), e) == RolesOf(t)
    ensures Told(t, from, seen)
  {
    assert t.events[seen..] == s.events[seen..] + [e];
    ReplaySnoc(from, s.events[seen..], e);
  }

  /** Nothing is emitted and owner and admins stay, or one event tells what changed. */
  ghost predicate Emits(s: State, t: State)
    requires s.owner.Some? && s.admins.Some?
  {
    && t.owner.Some? && t.admins.Some?
    && (|| (t.events == s.events && RolesOf(t) == RolesOf(s))
        || exists e: Event :: t.events == s.events + [e] && Honest(RolesOf(s), e) && Follow(RolesOf(s), e) == RolesOf(t))
  }

  lemma GrantEmits(s: State, target: Address)
    requires s.owner.Some? && s.admins.Some?
    ensures Emits(s, Grant(s, target).0)
  {
    assert Honest(RolesOf(s), AdminGranted(target)) || target in s.admins.value;
  }

  lemma RevokeEmits(s: State, target: Address, caller: Address)
    requires s.owner.Some? && s.admins.Some?
    ensures Emits(s, Revoke(s, target, caller).0)
  {
    var r := RolesOf(s);
    if target in r.admins && target != r.owner {
      assert |r.admins| == |r.admins - {target}| + 1;
      if |r.admins| > 1 {
        assert Honest(r, AdminRevoked(target));
      } else {
        assert Honest(r, GovernanceInvariant(caller));
      }
    }
  }

  lemma TransferEmits(s: State, target: Address)
    requires s.owner.Some? && s.admins.Some?
    ensures Emits(s, Transfer(s, target).0)
  {
    assert Honest(RolesOf(s), OwnershipTransferred(target, s.owner.value)) || target == s.owner.value;
  }

  lemma StepEmits(s: State, c: Call)
    requires s.owner.Some? && s.admins.Some?
    ensures Emits(s, Perform(s, c).0)
  {
    match c
    case GrantAdmin(_, target, _) => GrantEmits(s, target);
    case RevokeAdmin(caller, target, _) => RevokeEmits(s, target, caller);
    case TransferOwnership(_, target, _) => TransferEmits(s, target);
    case Execute(_, _, proposer, action, _) =>
      match action {
        case ToGrant(target) => GrantEmits(s, target);
        case ToRevoke(target) => RevokeEmits(s, target, proposer);
        case ToTransfer(target) => TransferEmits(s, target);
      }
    case _ =>
  }

  lemma StepIsTold(s: State, from: Roles, seen: nat, c: Call)
    requires Told(s, from, seen)
    ensures Told(Perform(s, c).0, from, seen)
  {
    var t := Perform(s, c).0;
    StepEmits(s, c);
    if t.events != s.events {
      var e: Event :| t.events == s.events + [e] && Honest(RolesOf(s), e) && Follow(RolesOf(s), e) == RolesOf(t);
      EventIsTold(s, t, from, seen, e);
    }
  }

  lemma {:induction false} RunIsTold(s: State, from: Roles, seen: nat, calls: seq<Call>)
    requires Told(s, from, seen)
    ensures Told(Run(s, calls), from, seen)
    decreases |calls|
  {
    if calls != [] {
      StepIsTold(s, from, seen, calls[0]);
      RunIsTold(Perform(s, calls[0]).0, from, seen, calls[1..]);
    }
  }

  // ---- Runs from the empty contract ----------------------------------------

  const EMPTY := State(None, None, None, [])

  /** The owner that the first initialization names. */
  function FirstOwner(calls: seq<Call>): Option<Address> {
    if calls == [] then None
    else if calls[0].InitOwner? then Some(calls[0].owner)
    else FirstOwner(calls[1..])
  }

  /** Without an owner every other call fails and emits nothing. */
  lemma NothingBeforeInitialization(c: Call)
    requires !c.InitOwner?
    ensures Perform(EMPTY, c).0 == EMPTY && Perform(EMPTY, c).1 != Ok
  {
  }

  lemma Initialized(owner: Address)
    ensures Told(Perform(EMPTY, InitOwner(owner)).0, Roles(owner, {}), 0)
  {
    assert EMPTY.events[0..] == [];
  }

  lemma {:induction false} RunFromEmpty(calls: seq<Call>)
    ensures FirstOwner(calls).None? ==> Run(EMPTY, calls) == EMPTY
    ensures FirstOwner(calls).Some? ==> Told(Run(EMPTY, calls), Roles(FirstOwner(calls).value, {}), 0)
    decreases |calls|
  {
    if calls != [] {
      if calls[0].InitOwner? {
        Initialized(calls[0].owner);
        RunIsTold(Perform(EMPTY, calls[0]).0, Roles(calls[0].owner, {}), 0, calls[1..]);
      } else {
        NothingBeforeInitialization(calls[0]);
        RunFromEmpty(calls[1..]);
      }
    }
  }

  /**
    Whatever is called on an empty contract, there is an owner exactly when one
    was initialized, and nothing at all before that.  All events, replayed from
    the first owner, give the owner and the admins of now.  Each event tells of a
    real change: no admin is granted twice, none revoked who is none, and none
    who is the owner or the last.
   */
  lemma EventsTellTheRoles(calls: seq<Call>)
    ensures var t := Run(EMPTY, calls);
            && (t.owner.Some? <==> FirstOwner(calls).Some?)
            && (t.owner.None? ==> t == EMPTY)
            && (t.owner.Some? ==>
                  && t.admins.Some?
                  && Replay(Roles(FirstOwner(calls).value, {}), t.events) == Roles(t.owner.value, t.admins.value)
                  && AllHonest(Roles(FirstOwner(calls).value, {}), t.events))
  {
    RunFromEmpty(calls);
    assert Run(EMPTY, calls).events[0..] == Run(EMPTY, calls).events;
  }

  // ---- Admins --------------------------------------------------------------

  ghost predicate KeepsAdmins(s: State, t: State) {
    s.owner.Some? ==> t.owner.Some? && (SetOf(s.admins) != {} ==> SetOf(t.admins) != {})
  }

  lemma StepKeepsAdmins(s: State, c: Call)
    ensures KeepsAdmins(s, Perform(s, c).0)
  {
    var t := Perform(s, c).0;
    if s.owner.Some? && SetOf(t.admins) != SetOf(s.admins) {
      var gone := SetOf(s.admins) - SetOf(t.admins);
      if gone != {} {
        var a :| a in gone;
        assert SetOf(t.admins) == SetOf(s.admins) - {a};
        assert |SetOf(t.admins)| == |SetOf(s.admins)| - 1;
      }
    }
  }

  lemma {:induction false} AdminsStay(s: State, calls: seq<Call>)
    requires s.owner.Some? && SetOf(s.admins) != {}
    ensures Run(s, calls).owner.Some? && SetOf(Run(s, calls).admins) != {}
    decreases |calls|
  {
    if calls != [] {
      StepKeepsAdmins(s, calls[0]);
      AdminsStay(Perform(s, calls[0]).0, calls[1..]);
    }
  }

  lemma {:induction false} RunConcat(s: State, a: seq<Call>, b: seq<Call>)
    ensures Run(s, a + b) == Run(Run(s, a), b)
    decreases |a|
  {
    if a == [] {
      assert a + b == b;
    } else {
      assert (a + b)[1..] == a[1..] + b;
      RunConcat(Perform(s, a[0]).0, a[1..], b);
    }
  }

  /**
    Once a contract has an admin it has an owner too, and it never runs out of
    either, across transfers and owners who are admins themselves.
   */
  lemma AdminsNeverRunOut(calls: seq<Call>, more: seq<Call>)
    requires SetOf(Run(EMPTY, calls).admins) != {}
    ensures Run(EMPTY, calls).owner.Some?
    ensures Run(EMPTY, calls + more).owner.Some? && SetOf(Run(EMPTY, calls + more).admins) != {}
  {
    EventsTellTheRoles(calls);
    AdminsStay(Run(EMPTY, calls), more);
    RunConcat(EMPTY, calls, more);
  }

  /** Who signed a call, if it was signed. */
  function Signer(c: Call): Option<Address> {
    match c
    case InitOwner(_) => None
    case Execute(executor, signed, _, _, _) => if signed then Some(executor) else None
    case _ => if c.signed then Some(c.caller) else None
  }

  /**
    Once there is an owner, a call that changes the owner or the admins succeeded
    and was signed: by the owner of that moment, or, where governance executes a
    proposal with its quorum, by an admin or the owner.  One that changes the
    operators was signed by an admin or the owner.
   */
  lemma OnlyTheAuthorizedChangeRoles(s: State, c: Call)
    requires s.owner.Some?
    ensures var (t, r) := Perform(s, c);
            && (t.owner != s.owner || t.admins != s.admins ==>
                  && r == Ok && Signer(c).Some?
                  && (if c.Execute? then c.due && Authorized(s, Signer(c).value) else Signer(c) == s.owner))
            && (t.operators != s.operators ==> r == Ok && Signer(c).Some? && Authorized(s, Signer(c).value))
  {
  }

  /** A call that does not succeed changes no role. */
  lemma FailuresChangeNothing(s: State, c: Call)
    requires Perform(s, c).1 != Ok
    ensures var t := Perform(s, c).0; t.owner == s.owner && t.admins == s.admins && t.operators == s.operators
  {
  }

  function CountOf(events: seq<Event>, granted: bool): nat
    decreases |events|
  {
    if events == [] then 0
    else
      var e := events[|events| - 1];
      CountOf(events[..|events| - 1], granted) + (if (if granted then e.AdminGranted? else e.AdminRevoked?) then 1 else 0)
  }

  /** From honest events the number of admins can be counted: grants less revocations. */
  lemma {:induction false} GrantsLessRevocations(r: Roles, events: seq<Event>)
    requires AllHonest(r, events)
    ensures |Replay(r, events).admins| == |r.admins| + CountOf(events, true) - CountOf(events, false)
    decreases |events|
  {
    if events != [] {
      var before, e := events[..|events| - 1], events[|events| - 1];
      assert Honest(Replay(r, before), e);
      forall i | 0 <= i < |before| ensures Honest(Replay(r, before[..i]), before[i]) {
        assert before[..i] == events[..i];
        assert Honest(Replay(r, events[..i]), events[i]);
      }
      GrantsLessRevocations(r, before);
    }
  }

  /** The count of authorized addresses is right except that an owner who is also listed counts twice. */
  lemma ListedOwnerCountsTwice(s: State)
    requires s.owner.Some?
    ensures var authorized := SetOf(s.admins) + {s.owner.value};
            && (forall a :: a in authorized <==> Authorized(s, a))
            && 1 + |SetOf(s.admins)| == |authorized| + (if s.owner.value in SetOf(s.admins) then 1 else 0)
  {
    if s.owner.value in SetOf(s.admins) { assert SetOf(s.admins) + {s.owner.value} == SetOf(s.admins); }
  }

  // ---- The contract --------------------------------------------------------

  class Contract {
    var owner: Option<Address>
    var admins: Option<set<Address>>
    var operators: Option<set<Address>>
    var events: seq<Event>

    ghost function St(): State
      reads this
    {
      State(owner, admins, operators, events)
    }

    constructor ()
      ensures St() == EMPTY
    {
      owner, admins, operators, events := None, None, None, [];
    }

    method InitOwner(newOwner: Address) returns (r: Outcome)
      modifies this
      ensures (St(), r) == Perform(old(St()), Call.InitOwner(newOwner))
    {
      if owner.Some? { return Err(NotInitialized); }
      owner := Some(newOwner);
      admins := Some({});
      operators := Some({});
      r := Ok;
    }

    function GetOwner(): (r: Option<Address>)
      reads this
    {
      owner
    }

    predicate IsAdmin(a: Address)
      reads this
    {
      admins.Some? && a in admins.value
    }

    predicate IsOperator(a: Address)
      reads this
    {
      operators.Some? && a in operators.value
    }

    /** `None` is the error of a contract that is not initialized. */
    function HasRole(a: Address, role: Role): (r: Option<bool>)
      reads this
      ensures r.None? <==> role == OwnerRole && owner.None?
      ensures r == Some(true) <==>
                || (role == OwnerRole && owner == Some(a))
                || (role == AdminRole && a in SetOf(admins))
                || (role == OperatorRole && a in SetOf(operators))
    {
      match role
      case OwnerRole => if owner.None? then None else Some(owner.value == a)
      case AdminRole => Some(IsAdmin(a))
      case OperatorRole => Some(IsOperator(a))
    }

    function CountAdmins(): (n: nat)
      reads this
      ensures n == |SetOf(admins)|
    {
      if admins.Some? then |admins.value| else 0
    }

    function CountAuthorized(): (n: nat)
      reads this
      ensures n == 1 + |SetOf(admins)|
    {
      1 + CountAdmins()
    }

    method GrantAdmin(caller: Address, target: Address, signed: bool) returns (r: Outcome)
      modifies this
      ensures (St(), r) == Perform(old(St()), Call.GrantAdmin(caller, target, signed))
    {
      r := RequireOwner(State(owner, admins, operators, events), caller, signed);
      if r == Ok { r := InternalGrantAdmin(target); }
    }

    method InternalGrantAdmin(target: Address) returns (r: Outcome)
      modifies this
      ensures (St(), r) == Grant(old(St()), target)
    {
      if IsAdmin(target) { return Err(AlreadyAdmin); }
      var granted := if admins.Some? then admins.value else {};
      granted := granted + {target};
      admins := Some(granted);
      events := events + [AdminGranted(target)];
      r := Ok;
    }

    method RevokeAdmin(caller: Address, target: Address, signed: bool) returns (r: Outcome)
      modifies this
      ensures (St(), r) == Perform(old(St()), Call.RevokeAdmin(caller, target, signed))
    {
      r := RequireOwner(State(owner, admins, operators, events), caller, signed);
      if r == Ok { r := InternalRevokeAdmin(target, caller); }
    }

    method InternalRevokeAdmin(target: Address, caller: Address) returns (r: Outcome)
      modifies this
      ensures (St(), r) == Revoke(old(St()), target, caller)
    {
      if owner.None? { return Err(NotInitialized); }
      if owner.value == target { return Err(CannotDemoteOwner); }
      if !IsAdmin(target) { return Err(NotAdmin); }
      if CountAdmins() <= 1 {
        events := events + [GovernanceInvariant(caller)];
        return Err(CannotRevokeLastAdmin);
      }
      admins := Some(admins.value - {target});
      events := events + [AdminRevoked(target)];
      r := Ok;
    }

    method TransferOwnership(caller: Address, target: Address, signed: bool) returns (r: Outcome)
      modifies this
      ensures (St(), r) == Perform(old(St()), Call.TransferOwnership(caller, target, signed))
    {
      r := RequireOwner(State(owner, admins, operators, events), caller, signed);
      if r == Ok { r := InternalTransferOwnership(target); }
    }

    method InternalTransferOwnership(target: Address) returns (r: Outcome)
      modifies this
      ensures (St(), r) == Transfer(old(St()), target)
    {
      if owner.None? { return Err(NotInitialized); }
      var oldOwner := owner.value;
      if oldOwner == target { return Err(InvalidOwnershipTransfer); }
      owner := Some(target);
      events := events + [OwnershipTransferred(target, oldOwner)];
      r := Ok;
    }

    /** The part of `execute` that concerns roles; the host undoes a call that traps. */
    method Execute(executor: Address, signed: bool, proposer: Address, action: Action, due: bool) returns (r: Outcome)
      modifies this
      ensures (St(), r) == Perform(old(St()), Call.Execute(executor, signed, proposer, action, due))
    {
      r := RequireAdminOrOwner(State(owner, admins, operators, events), executor, signed);
      if r != Ok || !due { return Trap; }
      var before := (owner, admins, operators, events);
      match action {
        case ToGrant(target) => r := InternalGrantAdmin(target);
        case ToRevoke(target) => r := InternalRevokeAdmin(target, proposer);
        case ToTransfer(target) => r := InternalTransferOwnership(target);
      }
      if r != Ok {
        owner, admins, operators, events := before.0, before.1, before.2, before.3;
        r := Trap;
      }
    }

    method GrantOperator(caller: Address, target: Address, signed: bool) returns (r: Outcome)
      modifies this
      ensures (St(), r) == Perform(old(St()), Call.GrantOperator(caller, target, signed))
    {
      r := RequireAdminOrOwner(State(owner, admins, operators, events), caller, signed);
      if r != Ok { return; }
      if IsOperator(target) { return Err(AlreadyOperator); }
      var granted := if operators.Some? then operators.value else {};
      operators := Some(granted + {target});
    }

    method RevokeOperator(caller: Address, target: Address, signed: bool) returns (r: Outcome)
      modifies this
      ensures (St(), r) == Perform(old(St()), Call.RevokeOperator(caller, target, signed))
    {
      r := RequireAdminOrOwner(State(owner, admins, operators, events), caller, signed);
      if r != Ok { return; }
      if !IsOperator(target) { return Err(NotOperator); }
      operators := Some(operators.value - {target});
    }
  }
}
