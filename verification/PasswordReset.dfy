/**
  Password-reset tokens: any number of calls create and consume them, one
  database statement at a time, while others invalidate and clean up.

  Tokens are random, so a new one has never been issued before; SHA-256 is taken
  as injective, so a token stands for its hash.  Times are in milliseconds.
 */
module PasswordReset {
  import opened Options

  type Token = nat
  type UserId = nat
  type CallId = nat

  datatype Row = Row(userId: UserId, expiresAt: nat, used: bool)

  datatype Reason = Valid | Invalid | Expired | Reused

  datatype Pc =
    | Reading(token: Token, now: nat)
    | Updating(token: Token, now: nat)
    | Rereading(token: Token, now: nat)
    | Answered(token: Token, now: nat, reason: Reason)
    | Invalidating(user: UserId)
    | Inserting(user: UserId)
    | Created(user: UserId, token: Token)

  /** A conditional update that took effect. */
  datatype Win = Win(call: CallId, now: nat)

  datatype State = State(
    rows: map<Token, Row>,
    nextToken: Token,
    now: nat,
    calls: map<CallId, Pc>,
    // What has happened so far; no step looks at these.
    issued: map<Token, Row>,
    wins: map<Token, Win>)

  datatype Event =
    | Consume(c: CallId, token: Token, now: nat)
    | Create(c: CallId, user: UserId)
    | Act(c: CallId)
    | InvalidateUser(user: UserId)
    | MarkUsed(token: Token)
    | Cleanup
    | Elapse(ms: nat)

  const LIFETIME := 900_000

  // ---- Statements ----------------------------------------------------------

  predicate Live(r: Row) { !r.used }

  function Invalidated(rows: map<Token, Row>, user: UserId): map<Token, Row> {
    map t | t in rows :: if rows[t].userId == user && !rows[t].used then rows[t].(used := true) else rows[t]
  }

  function Unexpired(rows: map<Token, Row>, now: nat): map<Token, Row> {
    map t | t in rows && rows[t].expiresAt >= now :: rows[t]
  }

  function Become(s: State, c: CallId, pc: Pc): State {
    s.(calls := s.calls[c := pc])
  }

  function Read(s: State, c: CallId, token: Token, now: nat): State {
    if token !in s.rows then Become(s, c, Answered(token, now, Invalid))
    else if s.rows[token].used then Become(s, c, Answered(token, now, Reused))
    else if s.rows[token].expiresAt <= now then Become(s, c, Answered(token, now, Expired))
    else Become(s, c, Updating(token, now))
  }

  /** The conditional update: unused, and expiring after `now`. */
  function UpdateIfValid(s: State, c: CallId, token: Token, now: nat): State {
    if token in s.rows && !s.rows[token].used && s.rows[token].expiresAt > now then
      Become(s.(rows := s.rows[token := s.rows[token].(used := true)], wins := s.wins[token := Win(c, now)]),
             c, Rereading(token, now))
    else Become(s, c, Answered(token, now, Reused))
  }

  function Insert(s: State, c: CallId, user: UserId): State {
    var r := Row(user, s.now + LIFETIME, false);
    Become(s.(rows := s.rows[s.nextToken := r], issued := s.issued[s.nextToken := r], nextToken := s.nextToken + 1),
           c, Created(user, s.nextToken))
  }

  function CallStep(s: State, c: CallId): State
    requires c in s.calls
  {
    match s.calls[c]
    case Reading(token, now) => Read(s, c, token, now)
    case Updating(token, now) => UpdateIfValid(s, c, token, now)
    case Rereading(token, now) => Become(s, c, Answered(token, now, if token in s.rows then Valid else Invalid))
    case Invalidating(user) => Become(s.(rows := Invalidated(s.rows, user)), c, Inserting(user))
    case Inserting(user) => Insert(s, c, user)
    case _ => s
  }

  function Step(s: State, e: Event): State {
    match e
    case Consume(c, token, now) => if c in s.calls then s else Become(s, c, Reading(token, now))
    case Create(c, user) => if c in s.calls then s else Become(s, c, Invalidating(user))
    case Act(c) => if c in s.calls then CallStep(s, c) else s
    case InvalidateUser(user) => s.(rows := Invalidated(s.rows, user))
    case MarkUsed(token) =>
      if token in s.rows then s.(rows := s.rows[token := s.rows[token].(used := true)]) else s
    case Cleanup => s.(rows := Unexpired(s.rows, s.now))
    case Elapse(ms) => s.(now := s.now + ms)
  }

  function Run(s: State, trace: seq<Event>): State
    decreases |trace|
  {
    if trace == [] then s else Run(Step(s, trace[0]), trace[1..])
  }

  ghost predicate Initial(s: State) {
    s.rows == s.issued == map[] && s.calls == map[] && s.wins == map[]
  }

  // ---- The invariant -------------------------------------------------------

  ghost predicate TokenOk(s: State, t: Token)
    requires t in s.issued
  {
    && t < s.nextToken
    && !s.issued[t].used
    && (t in s.rows ==> s.rows[t] == s.issued[t] || s.rows[t] == s.issued[t].(used := true))
    && (t !in s.rows ==> s.issued[t].expiresAt < s.now)
    && (t in s.wins ==> s.wins[t].now < s.issued[t].expiresAt && (t in s.rows ==> s.rows[t].used))
  }

  ghost predicate CallOk(s: State, c: CallId)
    requires c in s.calls
  {
    match s.calls[c]
    case Rereading(token, now) => token in s.wins && s.wins[token] == Win(c, now)
    case Answered(token, now, Valid) => token in s.wins && s.wins[token] == Win(c, now)
    case _ => true
  }

  ghost predicate Inv(s: State) {
    && s.rows.Keys <= s.issued.Keys
    && s.wins.Keys <= s.issued.Keys
    && (forall t | t in s.issued :: TokenOk(s, t))
    && (forall c | c in s.calls :: CallOk(s, c))
  }

  /** A step that only uses up or removes rows, and moves at most one call that is no winner. */
  lemma ShrinkKeeps(s: State, t: State, c: CallId)
    requires Inv(s) && t.issued == s.issued && t.wins == s.wins && t.nextToken == s.nextToken && t.now >= s.now
    requires t.rows.Keys <= s.rows.Keys
    requires forall k | k in t.rows :: t.rows[k] == s.rows[k] || t.rows[k] == s.rows[k].(used := true)
    requires forall k | k in s.rows && k !in t.rows :: s.rows[k].expiresAt < t.now
    requires || t.calls == s.calls
             || (&& t.calls.Keys == s.calls.Keys + {c} && CallOk(t, c)
                 && forall d | d in t.calls && d != c :: t.calls[d] == s.calls[d])
    ensures Inv(t)
  {
    forall k | k in t.issued ensures TokenOk(t, k) { assert TokenOk(s, k); }
    forall d | d in t.calls ensures CallOk(t, d) {
      if d in s.calls { assert CallOk(s, d); }
    }
  }

  lemma UpdateKeeps(s: State, c: CallId, token: Token, now: nat)
    requires Inv(s) && c in s.calls && s.calls[c] == Updating(token, now)
    ensures Inv(UpdateIfValid(s, c, token, now))
  {
    var t := UpdateIfValid(s, c, token, now);
    if token in s.rows && !s.rows[token].used && s.rows[token].expiresAt > now {
      assert TokenOk(s, token);
      forall k | k in t.issued ensures TokenOk(t, k) { assert TokenOk(s, k); }
      forall d | d in t.calls ensures CallOk(t, d) {
        if d != c { assert CallOk(s, d); }
      }
    } else {
      ShrinkKeeps(s, t, c);
    }
  }

  lemma InsertKeeps(s: State, c: CallId, user: UserId)
    requires Inv(s) && c in s.calls && s.calls[c] == Inserting(user)
    ensures Inv(Insert(s, c, user))
  {
    var t := Insert(s, c, user);
    forall k | k in s.issued ensures k < s.nextToken { assert TokenOk(s, k); }
    forall k | k in t.issued ensures TokenOk(t, k) {
      if k != s.nextToken { assert TokenOk(s, k); }
    }
    forall d | d in t.calls ensures CallOk(t, d) {
      if d != c { assert CallOk(s, d); }
    }
  }

  lemma CallStepKeeps(s: State, c: CallId)
    requires Inv(s) && c in s.calls
    ensures Inv(CallStep(s, c))
  {
    assert CallOk(s, c);
    match s.calls[c]
    case Updating(token, now) => UpdateKeeps(s, c, token, now);
    case Inserting(user) => InsertKeeps(s, c, user);
    case _ => ShrinkKeeps(s, CallStep(s, c), c);
  }

  lemma StepKeeps(s: State, e: Event)
    requires Inv(s)
    ensures Inv(Step(s, e))
  {
    match e
    case Act(c) => if c in s.calls { CallStepKeeps(s, c); }
    case Consume(c, _, _) => ShrinkKeeps(s, Step(s, e), c);
    case Create(c, _) => ShrinkKeeps(s, Step(s, e), c);
    case Cleanup =>
      forall k | k in s.rows ensures s.rows[k].expiresAt == s.issued[k].expiresAt { assert TokenOk(s, k); }
      ShrinkKeeps(s, Step(s, e), 0);
    case _ => ShrinkKeeps(s, Step(s, e), 0);
  }

  lemma {:induction false} RunKeeps(s: State, trace: seq<Event>)
    requires Inv(s)
    ensures Inv(Run(s, trace))
    decreases |trace|
  {
    if trace != [] {
      StepKeeps(s, trace[0]);
      RunKeeps(Step(s, trace[0]), trace[1..]);
    }
  }

  lemma {:induction false} RunConcat(s: State, a: seq<Event>, b: seq<Event>)
    ensures Run(s, a + b) == Run(Run(s, a), b)
    decreases |a|
  {
    if a == [] {
      assert a + b == b;
    } else {
      assert (a + b)[1..] == a[1..] + b;
      RunConcat(Step(s, a[0]), a[1..], b);
    }
  }

  // ---- Main results --------------------------------------------------------

  ghost predicate SaysValid(s: State, c: CallId, token: Token) {
    c in s.calls && s.calls[c].Answered? && s.calls[c].token == token && s.calls[c].reason == Valid
  }

  /** Whatever runs in between, at most one call ever reports a token valid. */
  lemma ValidAtMostOnce(s: State, trace: seq<Event>, token: Token, c: CallId, d: CallId)
    requires Initial(s) && SaysValid(Run(s, trace), c, token) && SaysValid(Run(s, trace), d, token)
    ensures c == d
  {
    RunKeeps(s, trace);
    assert CallOk(Run(s, trace), c) && CallOk(Run(s, trace), d);
  }

  /** A call that reports a token valid made its update before the token's expiry, relative to its own `now`. */
  lemma ValidBeforeExpiry(s: State, trace: seq<Event>, token: Token, c: CallId)
    requires Initial(s) && SaysValid(Run(s, trace), c, token)
    ensures token in Run(s, trace).issued
    ensures Run(s, trace).calls[c].now < Run(s, trace).issued[token].expiresAt
  {
    RunKeeps(s, trace);
    var t := Run(s, trace);
    assert CallOk(t, c) && TokenOk(t, token);
  }

  /** A token that was issued, has not been won, and is used up or gone. */
  ghost predicate Dead(s: State, token: Token) {
    token < s.nextToken && token !in s.wins && (token in s.rows ==> s.rows[token].used)
  }

  lemma CallKeepsDead(s: State, c: CallId, token: Token)
    requires Inv(s) && Dead(s, token) && c in s.calls
    ensures Dead(CallStep(s, c), token)
  {
  }

  lemma StepKeepsDead(s: State, e: Event, token: Token)
    requires Inv(s) && Dead(s, token)
    ensures Dead(Step(s, e), token)
  {
    if e.Act? {
      if e.c in s.calls { CallKeepsDead(s, e.c, token); }
    }
  }

  lemma {:induction false} DeadStaysDead(s: State, trace: seq<Event>, token: Token)
    requires Inv(s) && Dead(s, token)
    ensures Dead(Run(s, trace), token)
    decreases |trace|
  {
    if trace != [] {
      StepKeeps(s, trace[0]);
      StepKeepsDead(s, trace[0], token);
      DeadStaysDead(Step(s, trace[0]), trace[1..], token);
    }
  }

  /**
    After an invalidation of a user's tokens, none of those issued so far is ever
    reported valid by a call whose update had not taken effect by then.
   */
  lemma NoneValidAfterInvalidation(s: State, before: seq<Event>, user: UserId, after: seq<Event>, token: Token, c: CallId)
    requires Initial(s)
    requires token in Run(s, before).issued && Run(s, before).issued[token].userId == user
    requires token !in Run(s, before).wins
    ensures !SaysValid(Run(s, before + ([InvalidateUser(user)] + after)), c, token)
  {
    RunKeeps(s, before);
    var m := Run(s, before);
    assert TokenOk(m, token);
    StepKeeps(m, InvalidateUser(user));
    DeadStaysDead(Step(m, InvalidateUser(user)), after, token);
    RunConcat(s, before, [InvalidateUser(user)] + after);
    assert ([InvalidateUser(user)] + after)[1..] == after;
    var t := Run(s, before + ([InvalidateUser(user)] + after));
    RunKeeps(s, before + ([InvalidateUser(user)] + after));
    if SaysValid(t, c, token) { ValidHasWon(t, c, token); }
  }

  lemma ValidHasWon(s: State, c: CallId, token: Token)
    requires Inv(s) && SaysValid(s, c, token)
    ensures token in s.wins && s.wins[token].call == c
  {
    assert CallOk(s, c);
  }

  /** The re-read of a winner fails only when the token has expired by the clock and was cleaned up. */
  lemma WinnersAreToldUnlessCleaned(s: State, trace: seq<Event>, c: CallId)
    requires Initial(s) && c in Run(s, trace).calls && Run(s, trace).calls[c].Rereading?
    ensures var t := Run(s, trace);
            var token := t.calls[c].token;
            && token in t.issued
            && (SaysValid(Step(t, Act(c)), c, token) <==> token in t.rows)
            && (token !in t.rows ==> t.issued[token].expiresAt < t.now)
  {
    RunKeeps(s, trace);
    var t := Run(s, trace);
    assert CallOk(t, c) && TokenOk(t, t.calls[c].token);
  }

  /** Such a clean-up can come between: the token is used up, and the call reports it invalid. */
  lemma CleanupCanHideSuccess(s: State, c: CallId, token: Token, now: nat)
    requires Inv(s) && c in s.calls && s.calls[c] == Updating(token, now)
    requires token in s.rows && !s.rows[token].used && now < s.rows[token].expiresAt
    ensures var ms := s.rows[token].expiresAt + 1;
            var t := Step(Step(Step(Step(s, Act(c)), Elapse(ms)), Cleanup), Act(c));
            t.calls[c] == Answered(token, now, Invalid) && token in t.wins && t.wins[token].call == c
  {
  }

  // ---- One live token per user ---------------------------------------------

  ghost predicate Creating(s: State, c: CallId, user: UserId) {
    c in s.calls && (s.calls[c] == Invalidating(user) || s.calls[c] == Inserting(user))
  }

  ghost predicate LiveFor(s: State, t: Token, user: UserId) {
    t in s.rows && s.rows[t].userId == user && Live(s.rows[t])
  }

  /** At most one call is creating, at most one token is live, and none while one is about to be inserted. */
  ghost predicate OneLive(s: State, user: UserId) {
    && (forall c, d | Creating(s, c, user) && Creating(s, d, user) :: c == d)
    && (forall t, u | LiveFor(s, t, user) && LiveFor(s, u, user) :: t == u)
    && ((exists c :: c in s.calls && s.calls[c] == Inserting(user)) ==> forall t :: !LiveFor(s, t, user))
  }

  /** No creation for the user starts while another one is under way. */
  ghost predicate NoOverlap(s: State, trace: seq<Event>, user: UserId)
    decreases |trace|
  {
    trace != [] ==>
      && (trace[0].Create? && trace[0].user == user ==> forall c :: !Creating(s, c, user))
      && NoOverlap(Step(s, trace[0]), trace[1..], user)
  }

  lemma InsertingIsAlone(s: State, c: CallId, d: CallId, user: UserId)
    requires OneLive(s, user) && c in s.calls && d in s.calls
    requires s.calls[c] == Inserting(user) && s.calls[d] == Inserting(user)
    ensures c == d
  {
    assert Creating(s, c, user) && Creating(s, d, user);
  }

  lemma CallStepKeepsOneLive(s: State, c: CallId, user: UserId)
    requires Inv(s) && OneLive(s, user) && c in s.calls
    ensures OneLive(CallStep(s, c), user)
  {
    var t := CallStep(s, c);
    forall d | Creating(t, d, user) ensures Creating(s, d, user) {}
    forall k | LiveFor(t, k, user)
      ensures LiveFor(s, k, user) || (k == s.nextToken && s.calls[c] == Inserting(user))
    {
    }
    forall d | d in t.calls && t.calls[d] == Inserting(user)
      ensures forall k :: !LiveFor(t, k, user)
    {
      if d != c && s.calls[c] == Inserting(user) { InsertingIsAlone(s, c, d, user); }
    }
  }

  lemma StepKeepsOneLive(s: State, e: Event, user: UserId)
    requires Inv(s) && OneLive(s, user)
    requires e.Create? && e.user == user ==> forall c :: !Creating(s, c, user)
    ensures OneLive(Step(s, e), user)
  {
    var t := Step(s, e);
    if e.Act? {
      if e.c in s.calls { CallStepKeepsOneLive(s, e.c, user); }
    } else {
      forall k | LiveFor(t, k, user) ensures LiveFor(s, k, user) {}
      forall d | d in t.calls && t.calls[d] == Inserting(user) ensures d in s.calls && s.calls[d] == Inserting(user) {}
      forall d | Creating(t, d, user) ensures Creating(s, d, user) || (e.Create? && e.user == user && d == e.c) {}
    }
  }

  lemma {:induction false} OneLiveFrom(s: State, trace: seq<Event>, user: UserId)
    requires Inv(s) && OneLive(s, user) && NoOverlap(s, trace, user)
    ensures OneLive(Run(s, trace), user)
    decreases |trace|
  {
    if trace != [] {
      StepKeepsOneLive(s, trace[0], user);
      StepKeeps(s, trace[0]);
      OneLiveFrom(Step(s, trace[0]), trace[1..], user);
    }
  }

  /** When creations for a user do not overlap, at most one of the user's tokens is ever unused. */
  lemma AtMostOneLiveToken(s: State, trace: seq<Event>, user: UserId, t: Token, u: Token)
    requires Initial(s) && NoOverlap(s, trace, user)
    requires LiveFor(Run(s, trace), t, user) && LiveFor(Run(s, trace), u, user)
    ensures t == u
  {
    OneLiveFrom(s, trace, user);
  }

  /** When two do, both invalidations can come before both inserts, and two tokens are live. */
  lemma OverlappingCreationsLeaveTwo(s: State, c: CallId, d: CallId, user: UserId)
    requires c !in s.calls && d !in s.calls && c != d
    ensures var t := Step(Step(Step(Step(Step(Step(s, Create(c, user)), Create(d, user)), Act(c)), Act(d)), Act(c)), Act(d));
            LiveFor(t, s.nextToken, user) && LiveFor(t, s.nextToken + 1, user)
  {
    var a := Step(Step(s, Create(c, user)), Create(d, user));
    var b := Step(Step(a, Act(c)), Act(d));
    assert b.calls[c] == Inserting(user) && b.calls[d] == Inserting(user) && b.nextToken == s.nextToken;
  }

  // ---- The two expiry checks -----------------------------------------------

  /** `findValidToken`, which the code compares the other way round. */
  predicate FindValid(s: State, token: Token) {
    token in s.rows && !s.rows[token].used && !(s.now > s.rows[token].expiresAt)
  }

  /** What a consumption that is not disturbed reports at the same moment. */
  function ConsumeNow(s: State, c: CallId, token: Token): Reason
    requires c !in s.calls
  {
    var a := Step(Step(s, Consume(c, token, s.now)), Act(c));
    if a.calls[c].Answered? then a.calls[c].reason
    else
      var b := Step(Step(a, Act(c)), Act(c));
      if b.calls[c].Answered? then b.calls[c].reason else Invalid
  }

  /** They disagree at one moment only: at the very expiry a token is found valid, and consumed as expired. */
  lemma ChecksDifferAtExpiry(s: State, c: CallId, token: Token)
    requires c !in s.calls
    ensures ConsumeNow(s, c, token) == Valid <==> FindValid(s, token) && s.now != s.rows[token].expiresAt
    ensures FindValid(s, token) && s.now == s.rows[token].expiresAt ==> ConsumeNow(s, c, token) == Expired
    ensures FindValid(s, token) <==> token in s.rows && !s.rows[token].used && s.now <= s.rows[token].expiresAt
  {
  }

  // ---- What the statements do ----------------------------------------------

  /**
    What a consumption answers and leaves when nothing interferes: a token that is
    there, unused and not yet expired is used up, and every other row stays.
   */
  ghost predicate Consumed(s: State, t: State, token: Token, now: nat, reason: Reason) {
    if token !in s.rows then reason == Invalid && t.rows == s.rows
    else if s.rows[token].used then reason == Reused && t.rows == s.rows
    else if s.rows[token].expiresAt <= now then reason == Expired && t.rows == s.rows
    else reason == Valid && t.rows == s.rows[token := s.rows[token].(used := true)]
  }

  /** `n` steps of one call. */
  function Acts(s: State, c: CallId, n: nat): State
    decreases n
  {
    if n == 0 then s else Acts(Step(s, Act(c)), c, n - 1)
  }

  lemma {:induction false} AnsweredStays(s: State, c: CallId, n: nat)
    requires c in s.calls && s.calls[c].Answered?
    ensures Acts(s, c, n) == s
    decreases n
  {
    if n > 0 { AnsweredStays(s, c, n - 1); }
  }

  lemma LoneConsume(s: State, c: CallId, token: Token, now: nat, n: nat)
    requires c !in s.calls && n >= 3
    ensures var t := Acts(Step(s, Consume(c, token, now)), c, n);
            && c in t.calls && t.calls[c].Answered? && t.calls[c].token == token && t.calls[c].now == now
            && Consumed(s, t, token, now, t.calls[c].reason)
  {
    var a := Step(s, Consume(c, token, now));
    var b := Step(a, Act(c));
    assert Acts(a, c, n) == Acts(b, c, n - 1);
    if b.calls[c].Answered? {
      AnsweredStays(b, c, n - 1);
    } else {
      var d := Step(b, Act(c));
      var e := Step(d, Act(c));
      assert Acts(b, c, n - 1) == Acts(d, c, n - 2);
      assert Acts(d, c, n - 2) == Acts(e, c, n - 3);
      AnsweredStays(e, c, n - 3);
    }
  }

  /**
    A call that comes to its update too late, because the token is used up, gone
    or past the call's own `now`, changes nothing and is told that it was reused.
   */
  lemma LosersAreToldReused(s: State, c: CallId, token: Token, now: nat)
    requires c in s.calls && s.calls[c] == Updating(token, now)
    ensures var t := Step(s, Act(c));
            if token in s.rows && !s.rows[token].used && now < s.rows[token].expiresAt then
              t.rows == s.rows[token := s.rows[token].(used := true)] && t.calls == s.calls[c := Rereading(token, now)]
            else t.rows == s.rows && t.calls == s.calls[c := Answered(token, now, Reused)]
  {
  }

  /** The rows after a user's tokens were invalidated. */
  ghost predicate AllUsed(rows: map<Token, Row>, later: map<Token, Row>, user: UserId) {
    && later.Keys == rows.Keys
    && forall t | t in rows ::
         if rows[t].userId == user then later[t] == rows[t].(used := true) else later[t] == rows[t]
  }

  lemma InvalidationUses(s: State, user: UserId)
    ensures AllUsed(s.rows, Step(s, InvalidateUser(user)).rows, user)
  {
  }

  /** Marking a token uses it up, whatever it is. */
  lemma MarkingUses(s: State, token: Token)
    ensures var t := Step(s, MarkUsed(token));
            && t.rows.Keys == s.rows.Keys
            && (token in s.rows ==> t.rows[token] == s.rows[token].(used := true))
            && forall k | k in s.rows && k != token :: t.rows[k] == s.rows[k]
  {
  }

  /** A clean-up removes exactly what expired before now. */
  lemma CleanupRemoves(s: State)
    ensures var t := Step(s, Cleanup);
            && (forall k :: k in t.rows <==> k in s.rows && s.rows[k].expiresAt >= s.now)
            && forall k | k in t.rows :: t.rows[k] == s.rows[k]
  {
  }

  /** A creation that is alone uses up the user's tokens and adds one that lasts for fifteen minutes. */
  ghost predicate Renewed(s: State, t: State, user: UserId, token: Token) {
    && token == s.nextToken && token in t.rows
    && t.rows[token] == Row(user, s.now + 900_000, false)
    && (token !in s.rows ==> AllUsed(s.rows, t.rows - {token}, user))
  }

  lemma LoneCreate(s: State, c: CallId, user: UserId)
    requires c !in s.calls
    ensures var t := Acts(Step(s, Create(c, user)), c, 2);
            c in t.calls && t.calls[c] == Created(user, s.nextToken) && Renewed(s, t, user, s.nextToken)
  {
    var a := Step(s, Create(c, user));
    var b := Step(a, Act(c));
    var d := Step(b, Act(c));
    assert Acts(a, c, 2) == Acts(b, c, 1);
    assert Acts(b, c, 1) == Acts(d, c, 0);
    InvalidationUses(s, user);
    if s.nextToken !in s.rows { assert d.rows - {s.nextToken} == b.rows; }
  }

  // ---- The service ---------------------------------------------------------

  ghost predicate LeavesAlone(batch: seq<Event>, c: CallId) {
    forall e | e in batch :: (e.Consume? || e.Create? || e.Act?) ==> e.c != c
  }

  lemma {:induction false} OthersRun(s: State, batch: seq<Event>, c: CallId)
    requires c in s.calls && LeavesAlone(batch, c)
    ensures var t := Run(s, batch); c in t.calls && t.calls[c] == s.calls[c]
    decreases |batch|
  {
    if batch != [] {
      OthersRun(Step(s, batch[0]), batch[1..], c);
    }
  }

  lemma RunSnoc(s: State, trace: seq<Event>, e: Event)
    ensures Run(s, trace + [e]) == Step(Run(s, trace), e)
  {
    RunConcat(s, trace, [e]);
    assert Run(Run(s, trace), [e]) == Run(Step(Run(s, trace), e), []);
  }

  /** At every await others may run; what they do there is given in advance by `schedule`. */
  class PasswordResetService {
    var state: State
    var schedule: seq<seq<Event>>

    ghost predicate At(c: CallId, pc: Pc)
      reads this
    {
      && c in state.calls && state.calls[c] == pc
      && forall batch | batch in schedule :: LeavesAlone(batch, c)
    }

    method Await(ghost c: CallId) returns (ghost batch: seq<Event>)
      requires c in state.calls && At(c, state.calls[c])
      modifies this
      ensures c in state.calls && At(c, old(state.calls[c]))
      ensures state == Run(old(state), batch)
      ensures old(schedule) == [] ==> schedule == [] && state == old(state)
    {
      batch := [];
      if schedule != [] {
        var events := schedule[0];
        schedule := schedule[1..];
        batch := events;
        ghost var start, rest := state, schedule;
        var i := 0;
        while i < |events|
          invariant 0 <= i <= |events| && schedule == rest
          invariant state == Run(start, events[..i])
        {
          RunSnoc(start, events[..i], events[i]);
          assert events[..i + 1] == events[..i] + [events[i]];
          state := Step(state, events[i]);
          i := i + 1;
        }
        assert events[..|events|] == events;
        OthersRun(start, events, c);
      }
    }

    /** One call of `consumeValidToken`: a run of the protocol that ends with the call's answer. */
    method ConsumeValidToken(c: CallId, token: Token, now: nat) returns (reason: Reason, ghost trace: seq<Event>)
      requires c !in state.calls && forall batch | batch in schedule :: LeavesAlone(batch, c)
      modifies this
      ensures state == Run(old(state), trace) && trace != [] && trace[0] == Consume(c, token, now)
      ensures At(c, Answered(token, now, reason))
      ensures old(schedule) == [] ==> Consumed(old(state), state, token, now, reason)
    {
      ghost var start := state;
      state := state.(calls := state.calls[c := Reading(token, now)]);
      trace := [] + [Consume(c, token, now)];
      RunSnoc(start, [], Consume(c, token, now));

      var existing: Option<Row>;
      existing, trace := FindOne(c, token, start, trace);
      if existing.None? || existing.value.used || existing.value.expiresAt <= now {
        reason := if existing.None? then Invalid else if existing.value.used then Reused else Expired;
        return;
      }

      ghost var more := Await(c);
      RunConcat(start, trace, more);
      trace := trace + more;
      RunSnoc(start, trace, Act(c));
      trace := trace + [Act(c)];
      if !(token in state.rows && !state.rows[token].used && state.rows[token].expiresAt > now) {
        state := state.(calls := state.calls[c := Answered(token, now, Reused)]);
        return Reused, trace;
      }
      state := state.(
        rows := state.rows[token := state.rows[token].(used := true)],
        wins := state.wins[token := Win(c, now)],
        calls := state.calls[c := Rereading(token, now)]);

      var consumed: Option<Row>;
      consumed, trace := FindOne(c, token, start, trace);
      reason := if consumed.None? then Invalid else Valid;
    }

    /** `findOne`, and what the call makes of it at once. */
    method FindOne(c: CallId, token: Token, ghost start: State, ghost before: seq<Event>)
      returns (row: Option<Row>, ghost trace: seq<Event>)
      requires c in state.calls && (state.calls[c].Reading? || state.calls[c].Rereading?) && state.calls[c].token == token
      requires At(c, state.calls[c]) && state == Run(start, before) && before != []
      modifies this
      ensures state == Run(start, trace) && trace != [] && trace[0] == before[0]
      ensures var pc := old(state.calls[c]);
              At(c, if pc.Rereading? then Answered(token, pc.now, if row.Some? then Valid else Invalid)
                    else if row.None? then Answered(token, pc.now, Invalid)
                    else if row.value.used then Answered(token, pc.now, Reused)
                    else if row.value.expiresAt <= pc.now then Answered(token, pc.now, Expired)
                    else Updating(token, pc.now))
      ensures old(schedule) == [] ==> schedule == [] && state == CallStep(old(state), c)
      ensures old(schedule) == [] ==> row == if token in old(state).rows then Some(old(state).rows[token]) else None
    {
      ghost var more := Await(c);
      RunConcat(start, before, more);
      RunSnoc(start, before + more, Act(c));
      trace := before + more + [Act(c)];
      row := if token in state.rows then Some(state.rows[token]) else None;
      state := CallStep(state, c);
    }

    /** `invalidateUserTokens`, as the first step of a creation. */
    method InvalidateUserTokens(c: CallId, user: UserId, ghost start: State, ghost before: seq<Event>)
      returns (ghost trace: seq<Event>)
      requires c in state.calls && At(c, Invalidating(user)) && state == Run(start, before) && before != []
      modifies this
      ensures state == Run(start, trace) && trace != [] && trace[0] == before[0] && At(c, Inserting(user))
      ensures old(schedule) == [] ==>
                schedule == [] && state == old(state).(rows := Invalidated(old(state).rows, user), calls := state.calls)
    {
      ghost var more := Await(c);
      RunConcat(start, before, more);
      RunSnoc(start, before + more, Act(c));
      trace := before + more + [Act(c)];
      state := state.(rows := Invalidated(state.rows, user), calls := state.calls[c := Inserting(user)]);
    }

    /** The insert of the new row. */
    method SaveReset(c: CallId, user: UserId, ghost start: State, ghost before: seq<Event>)
      returns (token: Token, ghost trace: seq<Event>)
      requires c in state.calls && At(c, Inserting(user)) && state == Run(start, before) && before != []
      modifies this
      ensures state == Run(start, trace) && trace != [] && trace[0] == before[0] && At(c, Created(user, token))
      ensures token in state.rows && state.rows[token] == Row(user, state.now + 900_000, false)
      ensures old(schedule) == [] ==>
                && token == old(state).nextToken && state.now == old(state).now
                && state.rows == old(state).rows[token := Row(user, state.now + 900_000, false)]
    {
      ghost var more := Await(c);
      RunConcat(start, before, more);
      RunSnoc(start, before + more, Act(c));
      trace := before + more + [Act(c)];
      token := state.nextToken;
      var row := Row(user, state.now + LIFETIME, false);
      state := state.(
        rows := state.rows[token := row],
        issued := state.issued[token := row],
        nextToken := token + 1,
        calls := state.calls[c := Created(user, token)]);
    }

    /** One call of `createResetToken`: invalidate, then insert. */
    method CreateResetToken(c: CallId, user: UserId) returns (token: Token, ghost trace: seq<Event>)
      requires c !in state.calls && forall batch | batch in schedule :: LeavesAlone(batch, c)
      modifies this
      ensures state == Run(old(state), trace) && trace != [] && trace[0] == Create(c, user)
      ensures At(c, Created(user, token))
      ensures token in state.rows && state.rows[token] == Row(user, state.now + 900_000, false)
      ensures old(schedule) == [] ==> Renewed(old(state), state, user, token)
    {
      ghost var start := state;
      state := state.(calls := state.calls[c := Invalidating(user)]);
      trace := [] + [Create(c, user)];
      RunSnoc(start, [], Create(c, user));
      trace := InvalidateUserTokens(c, user, start, trace);
      token, trace := SaveReset(c, user, start, trace);
      InvalidationUses(start, user);
      if old(schedule) == [] && token !in start.rows { assert state.rows - {token} == Invalidated(start.rows, user); }
    }
  }
}
