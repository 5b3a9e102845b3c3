/**
  What every run of the idempotency protocol guarantees: one owner per attempt,
  one confession per key, stable replays, and a bound on how long `check` runs.
 */
module IdempotencyTheorems {
  import opened Options
  import opened CanonicalPayload
  import opened IdempotencyProtocol

  // ---- One owner per attempt -----------------------------------------------

  ghost function Owners(s: State, k: Key): set<ClientId> {
    set c | c in s.clients && Owner(s, c, k)
  }

  /**
    The record of a key is 'processing' exactly when exactly one client owns
    the attempt; a crashed client still owns it.
   */
  lemma OneOwnerPerAttempt(init: State, trace: seq<Event>, k: Key)
    requires Initial(init)
    ensures var s := Run(init, trace);
            && |Owners(s, k)| == (if k in s.records && s.records[k].status == Processing then 1 else 0)
  {
    InitialInv(init);
    RunKeeps(init, trace);
    var s := Run(init, trace);
    if k in s.records && s.records[k].status == Processing {
      assert RecordOk(s, k);
      var o: ClientId :| Owner(s, o, k);
      forall d | d in Owners(s, k) ensures d == o {
        assert Owner(s, d, k);
      }
      assert Owners(s, k) == {o};
    } else {
      forall c | c in s.clients ensures !Owner(s, c, k) {
        assert ClientOk(s, c);
      }
      assert Owners(s, k) == {};
    }
  }

  // ---- One confession per key ----------------------------------------------

  ghost function ConfessionsOf(s: State, k: Key): set<ConfessionId> {
    set id | id in s.rows && s.rows[id].key == Some(k)
  }

  /** Whatever fails, throws or crashes, a scoped key never has two confessions. */
  lemma AtMostOneConfession(init: State, trace: seq<Event>, k: Key)
    requires Initial(init)
    ensures |ConfessionsOf(Run(init, trace), k)| <= 1
  {
    InitialInv(init);
    RunKeeps(init, trace);
    var s := Run(init, trace);
    if id :| id in ConfessionsOf(s, k) {
      assert ConfessionsOf(s, k) == {id};
    }
  }

  /** The confession that a client of `create` was handed, if it was handed one. */
  function Handed(s: State, c: ClientId): Option<ConfessionId>
    requires c in s.clients
  {
    match s.clients[c].pc
    case Returned(Created(id)) => Some(id)
    case Returned(Replay(r)) => r
    case _ => None
  }

  /**
    All clients of one key are handed the same confession, even when they return
    at different points of the run: it is the one that the completed record
    names, and it holds the payload they sent.
   */
  lemma EveryAnswerIsTheSame(init: State, first: seq<Event>, rest: seq<Event>, c: ClientId, d: ClientId)
    requires Initial(init)
    requires c in init.clients && d in init.clients && init.clients[c].key == init.clients[d].key
    requires var s := Run(init, first); c in s.clients && Handed(s, c).Some?
    requires var t := Run(Run(init, first), rest); d in t.clients && Handed(t, d).Some?
    ensures var s, t := Run(init, first), Run(Run(init, first), rest);
            && Handed(s, c) == Handed(t, d)
            && Handed(s, c).value in t.rows
            && t.rows[Handed(s, c).value] == Confession(Some(init.clients[c].key), init.clients[d].hash)
  {
    InitialInv(init);
    RunKeeps(init, first);
    var s := Run(init, first);
    RunKeeps(s, rest);
    var t := Run(s, rest);
    var k := init.clients[c].key;
    assert ClientOk(s, c) && ClientOk(t, d);
    assert RecordOk(t, k);
  }

  /** A replay always carries the confession; it is never the empty answer. */
  lemma ReplaysAreNeverEmpty(init: State, trace: seq<Event>, c: ClientId)
    requires Initial(init) && c in Run(init, trace).clients
    requires Run(init, trace).clients[c].pc.Returned? && Run(init, trace).clients[c].pc.outcome.Replay?
    ensures Handed(Run(init, trace), c).Some?
  {
    InitialInv(init);
    RunKeeps(init, trace);
    assert ClientOk(Run(init, trace), c);
  }

  /** A completed record is never changed again, by either commit or by a claim. */
  lemma CompletionIsAbsorbing(init: State, first: seq<Event>, rest: seq<Event>, k: Key)
    requires Initial(init)
    requires k in Run(init, first).records && Run(init, first).records[k].status == Completed
    ensures var s, t := Run(init, first), Run(Run(init, first), rest);
            k in t.records && t.records[k] == s.records[k]
  {
    InitialInv(init);
    RunKeeps(init, first);
    RunKeeps(Run(init, first), rest);
  }

  /** The client has won the attempt, or was answered with a confession. */
  predicate Admitted(pc: Pc) {
    Owns(pc) || (pc.Returned? && (pc.outcome.Created? || pc.outcome.CreateFailed? || pc.outcome.Replay?))
  }

  /**
    The payload is part of the key's identity: whoever is admitted under one key,
    at whatever point of the run, sent payloads with one canonical form, and
    whoever is turned away with a conflict sent another one.
   */
  lemma OnePayloadPerKey(init: State, first: seq<Event>, rest: seq<Event>, c: ClientId, d: ClientId)
    requires Initial(init)
    requires c in init.clients && d in init.clients && init.clients[c].key == init.clients[d].key
    requires var s := Run(init, first); c in s.clients && Admitted(s.clients[c].pc)
    ensures var t := Run(Run(init, first), rest);
            && d in t.clients
            && (Admitted(t.clients[d].pc) ==> init.clients[c].hash == init.clients[d].hash)
            && (t.clients[d].pc == Returned(Conflict) ==> init.clients[c].hash != init.clients[d].hash)
  {
    InitialInv(init);
    RunKeeps(init, first);
    var s := Run(init, first);
    RunKeeps(s, rest);
    var t := Run(s, rest);
    RecordTellsPayload(s, c);
    RecordTellsPayload(t, d);
  }

  /** The record holds the payload of whoever was admitted, and not that of whoever was refused. */
  lemma RecordTellsPayload(s: State, c: ClientId)
    requires Inv(s) && c in s.clients
    ensures var k := s.clients[c].key;
            && (Admitted(s.clients[c].pc) ==> k in s.records && s.records[k].hash == s.clients[c].hash)
            && (s.clients[c].pc == Returned(Conflict) ==> k in s.records && s.records[k].hash != s.clients[c].hash)
  {
    assert ClientOk(s, c);
  }

  /**
    A request that differs from an admitted one in any field, or in its multiset
    of tags, is never admitted under the same key.
   */
  lemma OtherPayloadIsNeverAdmitted(
    init: State, first: seq<Event>, rest: seq<Event>, c: ClientId, d: ClientId, p: Payload, q: Payload)
    requires Initial(init)
    requires c in init.clients && d in init.clients && init.clients[c].key == init.clients[d].key
    requires init.clients[c].hash == Canonicalize(p) && init.clients[d].hash == Canonicalize(q)
    requires || p.message != q.message || p.gender != q.gender
             || p.stellarTxHash != q.stellarTxHash || !SameTags(p.tags, q.tags)
    requires var s := Run(init, first); c in s.clients && Admitted(s.clients[c].pc)
    ensures var t := Run(Run(init, first), rest); d in t.clients && !Admitted(t.clients[d].pc)
  {
    SameHashIff(p, q);
    OnePayloadPerKey(init, first, rest, c, d);
  }

  /** An attempt can report failure although its confession was committed. */
  lemma FailureAfterCommitIsPossible()
    ensures exists init: State, trace: seq<Event> ::
              && Initial(init)
              && var s := Run(init, trace);
              && 0 in s.clients && s.clients[0].pc == Returned(CreateFailed)
              && ConfessionsOf(s, "k") == {7}
  {
    var hash := Canonical("m", None, None, None);
    var init := State(map[], map[], map[0 := Client("k", hash, Start, false)], 0);
    var s1 := Step(init, Act(0, Aborts));
    var s2 := Step(s1, Act(0, Inserts(7, true)));
    var s3 := Step(s2, Act(0, Aborts));
    var trace := [Act(0, Aborts), Act(0, Inserts(7, true)), Act(0, Aborts)];
    assert trace[1..] == [Act(0, Inserts(7, true)), Act(0, Aborts)];
    assert trace[1..][1..] == [Act(0, Aborts)];
    assert Run(s3, []) == s3;
    assert Run(init, trace) == s3;
    assert ConfessionsOf(s3, "k") == {7};
  }

  // ---- `check` ends, and does not nest deeper than the claims it lost ------

  /** The conditional update that turns a failed record over to a new owner. */
  predicate WinsClaim(s: State, e: Event, k: Key) {
    && e.Act?
    && Enabled(s, e.c)
    && s.clients[e.c].pc.Claiming?
    && s.clients[e.c].key == k
    && k in s.records
    && s.records[k].status == Failed
  }

  predicate IsOwnStep(s: State, e: Event, c: ClientId) {
    e.Act? && e.c == c && Enabled(s, c)
  }

  function OwnSteps(s: State, trace: seq<Event>, c: ClientId): nat
    decreases |trace|
  {
    if trace == [] then 0
    else
      (if IsOwnStep(s, trace[0], c) then 1 else 0)
      + OwnSteps(Step(s, trace[0]), trace[1..], c)
  }

  /** How many failed-to-processing claims of key `k` clients other than `c` win. */
  function ClaimsByOthers(s: State, trace: seq<Event>, c: ClientId, k: Key): nat
    decreases |trace|
  {
    if trace == [] then 0
    else
      (if WinsClaim(s, trace[0], k) && trace[0].c != c then 1 else 0)
      + ClaimsByOthers(Step(s, trace[0]), trace[1..], c, k)
  }

  /** Polls left before a wait gives up: each one sleeps for the poll interval. */
  function Polls(deadline: nat, now: nat): nat {
    if now < deadline then (deadline - now + POLL_INTERVAL_MS - 1) / POLL_INTERVAL_MS else 0
  }

  function Weight(frames: seq<nat>, now: nat): nat {
    if frames == [] then 0
    else Weight(frames[..|frames| - 1], now) + 5 * Polls(frames[|frames| - 1], now) + 2
  }

  /** Five steps for each of the 5000 / 100 polls of one wait. */
  const NESTED_WAIT: nat := 250

  /** A claim that is bound to lose, because another client took the failed record over. */
  predicate Doomed(s: State, k: Key) {
    k !in s.records || s.records[k].status != Failed
  }

  /** A bound on the steps a client still has to take, if no other client wins a claim. */
  function Budget(s: State, c: ClientId): nat
    requires c in s.clients
  {
    match s.clients[c].pc
    case Start => NESTED_WAIT + 4
    case Existing => NESTED_WAIT + 3
    case Claiming(frames) => Weight(frames, s.now) + 3 + (if Doomed(s, s.clients[c].key) then NESTED_WAIT else 0)
    case Looping(frames) => Weight(frames, s.now)
    case Sleeping(frames, wake) => Weight(frames, if wake > s.now then wake else s.now) + 4
    case Fetching(frames, _) => Weight(frames, s.now) + 1
    case Creating => 2
    case Failing => 1
    case Committing(_) => 1
    case Returned(_) => 0
  }

  lemma WeightAges(frames: seq<nat>, now: nat, later: nat)
    requires now <= later
    ensures Weight(frames, later) <= Weight(frames, now)
  {
  }

  lemma WeightPush(frames: seq<nat>, deadline: nat, now: nat)
    ensures Weight(frames + [deadline], now) == Weight(frames, now) + 5 * Polls(deadline, now) + 2
  {
    assert (frames + [deadline])[..|frames|] == frames;
  }

  lemma WeightSleep(frames: seq<nat>, now: nat)
    requires frames != [] && now < frames[|frames| - 1]
    ensures Weight(frames, now + POLL_INTERVAL_MS) + 5 <= Weight(frames, now)
  {
    WeightAges(frames[..|frames| - 1], now, now + POLL_INTERVAL_MS);
  }

  lemma ExistingSpends(s: State, c: ClientId)
    requires Inv(s) && Enabled(s, c) && s.clients[c].pc.Existing?
    ensures Budget(HandleExisting(s, c), c) + 1 <= Budget(s, c)
  {
    assert ClientOk(s, c);
    WeightPush([], s.now + MAX_WAIT_MS, s.now);
    assert [] + [s.now + MAX_WAIT_MS] == [s.now + MAX_WAIT_MS];
  }

  lemma ClaimSpends(s: State, c: ClientId, frames: seq<nat>)
    requires Enabled(s, c) && s.clients[c].pc == Claiming(frames)
    ensures Budget(ClaimFailed(s, c, frames), c) + 1 <= Budget(s, c)
  {
    WeightPush(frames, s.now + MAX_WAIT_MS, s.now);
  }

  lemma LoopSpends(s: State, c: ClientId, frames: seq<nat>)
    requires Enabled(s, c) && s.clients[c].pc == Looping(frames)
    ensures Budget(LoopTop(s, c, frames), c) + 1 <= Budget(s, c)
  {
    if s.now < frames[|frames| - 1] { WeightSleep(frames, s.now); }
  }

  lemma PollSpends(s: State, c: ClientId, frames: seq<nat>)
    requires Enabled(s, c) && s.clients[c].pc.Sleeping? && s.clients[c].pc.frames == frames
    ensures Budget(Poll(s, c, frames), c) + 1 <= Budget(s, c)
  {
  }

  lemma FetchSpends(s: State, c: ClientId, frames: seq<nat>, confession: Option<ConfessionId>)
    requires Enabled(s, c) && s.clients[c].pc == Fetching(frames, confession)
    ensures Budget(FinishReplay(s, c, frames, confession), c) + 1 <= Budget(s, c)
  {
  }

  /** A client's own step uses up at least one unit of its budget. */
  lemma OwnStepSpends(s: State, c: ClientId, w: Work)
    requires Inv(s) && Enabled(s, c)
    ensures c in ClientStep(s, c, w).clients
    ensures Budget(ClientStep(s, c, w), c) + 1 <= Budget(s, c)
  {
    match s.clients[c].pc
    case Existing => ExistingSpends(s, c);
    case Claiming(frames) => ClaimSpends(s, c, frames);
    case Looping(frames) => LoopSpends(s, c, frames);
    case Sleeping(frames, _) => PollSpends(s, c, frames);
    case Fetching(frames, confession) => FetchSpends(s, c, frames, confession);
    case _ =>
  }

  /** Time passing costs nothing; a claim that became doomed gives one nested wait back. */
  lemma BudgetAges(s: State, t: State, c: ClientId)
    requires c in s.clients && c in t.clients && s.now <= t.now
    requires t.clients[c].pc == s.clients[c].pc && t.clients[c].key == s.clients[c].key
    ensures Budget(t, c)
         <= Budget(s, c) + (if !Doomed(s, s.clients[c].key) && Doomed(t, s.clients[c].key) then NESTED_WAIT else 0)
  {
    match s.clients[c].pc
    case Claiming(frames) => WeightAges(frames, s.now, t.now);
    case Looping(frames) => WeightAges(frames, s.now, t.now);
    case Sleeping(frames, wake) =>
      WeightAges(frames, if wake > s.now then wake else s.now, if wake > t.now then wake else t.now);
    case Fetching(frames, _) => WeightAges(frames, s.now, t.now);
    case _ =>
  }

  /** A failed record stays claimable until somebody wins the claim. */
  lemma DoomedOnlyByClaim(s: State, e: Event, k: Key)
    requires Inv(s)
    ensures !Doomed(s, k) && !WinsClaim(s, e, k) ==> !Doomed(Step(s, e), k)
  {
    if e.Act? && Enabled(s, e.c) {
      assert ClientOk(s, e.c);
    }
  }

  /** Other events leave a client's program counter alone. */
  lemma OthersLeaveClient(s: State, e: Event, c: ClientId)
    requires c in s.clients && !IsOwnStep(s, e, c)
    ensures c in Step(s, e).clients
    ensures Step(s, e).clients[c].pc == s.clients[c].pc && Step(s, e).clients[c].key == s.clients[c].key
    ensures s.now <= Step(s, e).now
  {
  }

  /** Every event keeps the account: own steps are paid for, claims of others give credit. */
  lemma StepBalances(s: State, e: Event, c: ClientId)
    requires Inv(s) && c in s.clients
    ensures Inv(Step(s, e)) && c in Step(s, e).clients && Step(s, e).clients[c].key == s.clients[c].key
    ensures (if IsOwnStep(s, e, c) then 1 else 0) + Budget(Step(s, e), c)
         <= Budget(s, c) + (if WinsClaim(s, e, s.clients[c].key) && e.c != c then NESTED_WAIT else 0)
  {
    StepKeeps(s, e);
    if IsOwnStep(s, e, c) {
      OwnStepSpends(s, c, e.work);
    } else {
      OthersLeaveClient(s, e, c);
      DoomedOnlyByClaim(s, e, s.clients[c].key);
      BudgetAges(s, Step(s, e), c);
    }
  }

  lemma {:induction false} BudgetBoundsSteps(s: State, trace: seq<Event>, c: ClientId)
    requires Inv(s) && c in s.clients
    ensures c in Run(s, trace).clients
    ensures OwnSteps(s, trace, c) + Budget(Run(s, trace), c)
         <= Budget(s, c) + 250 * ClaimsByOthers(s, trace, c, s.clients[c].key)
    decreases |trace|
  {
    if trace != [] {
      var k := s.clients[c].key;
      var t, rest := Step(s, trace[0]), trace[1..];
      StepBalances(s, trace[0], c);
      BudgetBoundsSteps(t, rest, c);
      assert Run(s, trace) == Run(t, rest);
      assert OwnSteps(s, trace, c) == (if IsOwnStep(s, trace[0], c) then 1 else 0) + OwnSteps(t, rest, c);
      assert ClaimsByOthers(s, trace, c, k)
          == (if WinsClaim(s, trace[0], k) && trace[0].c != c then 1 else 0) + ClaimsByOthers(t, rest, c, k);
    }
  }

  /**
    Although every nested wait restarts its deadline, a call of `create` takes
    at most a fixed number of steps, plus a fixed number for each failed attempt
    that another client took over in the meantime.
   */
  lemma CreateEnds(init: State, trace: seq<Event>, c: ClientId)
    requires Initial(init) && c in init.clients
    ensures OwnSteps(init, trace, c)
         <= 254 + 250 * ClaimsByOthers(init, trace, c, init.clients[c].key)
  {
    InitialInv(init);
    BudgetBoundsSteps(init, trace, c);
  }

  /** A call that has neither returned nor crashed can go on, at the latest once its sleep is over. */
  lemma NeverStuck(init: State, trace: seq<Event>, c: ClientId)
    requires Initial(init) && c in init.clients
    requires var s := Run(init, trace); c in s.clients && !s.clients[c].crashed && !s.clients[c].pc.Returned?
    ensures exists ms :: Enabled(Step(Run(init, trace), Elapse(ms)), c)
  {
    InitialInv(init);
    RunKeeps(init, trace);
    var s := Run(init, trace);
    assert ClientOk(s, c);
    var wait: nat := if s.clients[c].pc.Sleeping? then s.clients[c].pc.wake else 0;
    assert Enabled(Step(s, Elapse(wait)), c);
  }

  function Failures(s: State, trace: seq<Event>, k: Key): nat
    decreases |trace|
  {
    if trace == [] then 0
    else
      (if FailsAttempt(s, trace[0], k) then 1 else 0) + Failures(Step(s, trace[0]), trace[1..], k)
  }

  predicate FailsAttempt(s: State, e: Event, k: Key) {
    e.Act? && Enabled(s, e.c) && s.clients[e.c].pc.Failing? && s.clients[e.c].key == k
  }

  lemma FailuresFeedClaims(s: State, e: Event, k: Key)
    requires Inv(s)
    ensures (if WinsClaim(s, e, k) then 1 else 0) + (if Doomed(Step(s, e), k) then 0 else 1)
         <= (if FailsAttempt(s, e, k) then 1 else 0) + (if Doomed(s, k) then 0 else 1)
  {
    if e.Act? && Enabled(s, e.c) {
      assert ClientOk(s, e.c);
    }
  }

  /** Every claim takes over a failed attempt, so finitely many failures mean finitely many claims. */
  lemma {:induction false} ClaimsNeedFailures(s: State, trace: seq<Event>, c: ClientId, k: Key)
    requires Inv(s)
    ensures ClaimsByOthers(s, trace, c, k) <= Failures(s, trace, k) + (if Doomed(s, k) then 0 else 1)
    decreases |trace|
  {
    if trace != [] {
      StepKeeps(s, trace[0]);
      FailuresFeedClaims(s, trace[0], k);
      ClaimsNeedFailures(Step(s, trace[0]), trace[1..], c, k);
    }
  }

  /** How deep the client's waits are nested. */
  function Depth(pc: Pc): nat {
    match pc
    case Claiming(frames) => |frames|
    case Looping(frames) => |frames|
    case Sleeping(frames, _) => |frames|
    case Fetching(frames, _) => |frames|
    case _ => 0
  }

  function Nesting(s: State, c: ClientId): nat
    requires c in s.clients
  {
    var d := Depth(s.clients[c].pc);
    (if d > 1 then d else 1) + (if s.clients[c].pc.Claiming? && Doomed(s, s.clients[c].key) then 1 else 0)
  }

  lemma OwnStepNests(s: State, c: ClientId, w: Work)
    requires Inv(s) && Enabled(s, c)
    ensures c in ClientStep(s, c, w).clients
    ensures Nesting(ClientStep(s, c, w), c) <= Nesting(s, c)
  {
    assert s.clients[c].pc.Existing? || s.clients[c].pc.Sleeping? ==> s.clients[c].key in s.records by {
      assert ClientOk(s, c);
    }
  }

  lemma StepNests(s: State, e: Event, c: ClientId)
    requires Inv(s) && c in s.clients
    ensures Inv(Step(s, e)) && c in Step(s, e).clients && Step(s, e).clients[c].key == s.clients[c].key
    ensures Nesting(Step(s, e), c) <= Nesting(s, c) + (if WinsClaim(s, e, s.clients[c].key) && e.c != c then 1 else 0)
  {
    StepKeeps(s, e);
    if IsOwnStep(s, e, c) {
      OwnStepNests(s, c, e.work);
    } else {
      OthersLeaveClient(s, e, c);
      DoomedOnlyByClaim(s, e, s.clients[c].key);
    }
  }

  lemma {:induction false} NestingBounded(s: State, trace: seq<Event>, c: ClientId)
    requires Inv(s) && c in s.clients
    ensures c in Run(s, trace).clients
    ensures Nesting(Run(s, trace), c) <= Nesting(s, c) + ClaimsByOthers(s, trace, c, s.clients[c].key)
    decreases |trace|
  {
    if trace != [] {
      StepNests(s, trace[0], c);
      NestingBounded(Step(s, trace[0]), trace[1..], c);
    }
  }

  /** Waits nest at most one deeper than the claims of the key that other clients won. */
  lemma WaitsNestNoDeeperThanClaims(init: State, trace: seq<Event>, c: ClientId)
    requires Initial(init) && c in init.clients
    ensures c in Run(init, trace).clients
    ensures Depth(Run(init, trace).clients[c].pc) <= 1 + ClaimsByOthers(init, trace, c, init.clients[c].key)
  {
    InitialInv(init);
    NestingBounded(init, trace, c);
  }
}
