/**
  The logins of one email, one cache operation at a time.  Between any two steps
  other calls may run and time may pass.

  A read whose value the caller drops is no step of its own.  Calls run to
  their end.
 */
module LockoutProtocol {
  import opened Options
  import opened LockoutHistory
  import LockoutService

  type CallId = nat

  type Entry = LockoutService.Entry

  datatype Outcome = Refused | InvalidCredentials | LoggedIn | Unlocked

  /** Where a call stands: the cache operation that it does next. */
  datatype Pc =
    | Gate(matches: bool)
    | Validating(matches: bool)
    | Reading
    | Counting(attempts: nat)
    | ReadingCount
    | Locking(lockCount: nat)
    | CountingLock(lockCount: nat)
    | Forgetting
    | ClearingAttempts(outcome: Outcome)
    | ClearingLock(outcome: Outcome)
    | Returned(outcome: Outcome)

  datatype Happened = Failure(at: nat) | Lock(at: nat) | Clear(at: nat)

  datatype State = State(
    attempts: Option<Entry>,
    locked: Option<Entry>,
    count: Option<Entry>,
    now: nat,
    calls: map<CallId, Pc>,
    // What has happened so far; no step looks at it.
    log: seq<Happened>
  )

  datatype Step =
    | Login(c: CallId, matches: bool)
    | Unlock(c: CallId)
    | Act(c: CallId)
    | Elapse(ms: nat)

  const EMPTY := State(None, None, None, 0, map[], [])

  function Live(entry: Option<Entry>, now: nat): Option<nat> {
    if entry.Some? && now < entry.value.expires then Some(entry.value.value) else None
  }

  function OrZero(value: Option<nat>): nat {
    if value.Some? then value.value else 0
  }

  function Go(s: State, c: CallId, pc: Pc): State {
    s.(calls := s.calls[c := pc])
  }

  function Does(s: State, c: CallId, pc: Pc): State {
    match pc
    case Gate(matches) =>
      Go(s, c, if Live(s.locked, s.now).Some? then Returned(Refused) else Validating(matches))
    case Validating(matches) => Go(s, c, if matches then ClearingAttempts(LoggedIn) else Reading)
    case Reading => Go(s, c, Counting(OrZero(Live(s.attempts, s.now)) + 1))
    case Counting(n) =>
      Go(s.(attempts := Some(LockoutService.Entry(n, s.now + ATTEMPT_WINDOW_MS)), log := s.log + [Failure(s.now)]), c,
         if n >= MAX_ATTEMPTS then ReadingCount else Returned(InvalidCredentials))
    case ReadingCount => Go(s, c, Locking(OrZero(Live(s.count, s.now)) + 1))
    case Locking(k) =>
      var until := s.now + (if k > 0 then Duration(k) else 0);
      Go(s.(locked := Some(LockoutService.Entry(until, until)), log := s.log + [Lock(s.now)]), c, CountingLock(k))
    case CountingLock(k) => Go(s.(count := Some(LockoutService.Entry(k, s.now + CHAIN_WINDOW_MS))), c, Forgetting)
    case Forgetting => Go(s.(attempts := None), c, Returned(InvalidCredentials))
    case ClearingAttempts(outcome) => Go(s.(attempts := None, log := s.log + [Clear(s.now)]), c, ClearingLock(outcome))
    case ClearingLock(outcome) => Go(s.(locked := None, log := s.log + [Clear(s.now)]), c, Returned(outcome))
    case Returned(_) => s
  }

  function After(s: State, e: Step): State {
    match e
    case Login(c, matches) => if c in s.calls then s else Go(s, c, Gate(matches))
    case Unlock(c) => if c in s.calls then s else Go(s, c, ClearingAttempts(Unlocked))
    case Act(c) => if c in s.calls then Does(s, c, s.calls[c]) else s
    case Elapse(ms) => s.(now := s.now + ms)
  }

  function Run(s: State, trace: seq<Step>): State
    decreases |trace|
  {
    if trace == [] then s else Run(After(s, trace[0]), trace[1..])
  }

  // ---- What the log says of a window ---------------------------------------

  predicate InWindow(at: nat, from: nat) {
    from <= at < from + ATTEMPT_WINDOW_MS
  }

  /** The failures recorded in the window. */
  function Failures(log: seq<Happened>, from: nat): nat {
    if log == [] then 0
    else
      var n := |log| - 1;
      Failures(log[..n], from) + if log[n].Failure? && InWindow(log[n].at, from) then 1 else 0
  }

  /** Those of them after the last lock. */
  function SinceLock(log: seq<Happened>, from: nat): nat {
    if log == [] || log[|log| - 1].Lock? then 0
    else
      var n := |log| - 1;
      SinceLock(log[..n], from) + if log[n].Failure? && InWindow(log[n].at, from) then 1 else 0
  }

  function LocksSince(log: seq<Happened>, from: nat): nat {
    if log == [] then 0
    else
      var n := |log| - 1;
      LocksSince(log[..n], from) + if log[n].Lock? && log[n].at >= from then 1 else 0
  }

  predicate Uncleared(log: seq<Happened>, from: nat) {
    forall i | 0 <= i < |log| && log[i].Clear? :: !InWindow(log[i].at, from)
  }

  lemma Logs(log: seq<Happened>, h: Happened, from: nat)
    ensures var more := log + [h];
            && Failures(more, from) == Failures(log, from) + (if h.Failure? && InWindow(h.at, from) then 1 else 0)
            && SinceLock(more, from)
               == (if h.Lock? then 0 else SinceLock(log, from) + if h.Failure? && InWindow(h.at, from) then 1 else 0)
            && LocksSince(more, from) == LocksSince(log, from) + (if h.Lock? && h.at >= from then 1 else 0)
  {
    assert (log + [h])[..|log|] == log;
  }

  // ---- One call at a time --------------------------------------------------

  predicate AllReturned(s: State) {
    forall c | c in s.calls :: s.calls[c].Returned?
  }

  /** A call begins only when every other has returned. */
  predicate NoOverlap(s: State, trace: seq<Step>)
    decreases |trace|
  {
    trace == [] ||
    ((trace[0].Login? || trace[0].Unlock? ==> AllReturned(s)) && NoOverlap(After(s, trace[0]), trace[1..]))
  }

  /** What a call that stands at `pc` has found out, before the window is over. */
  ghost predicate PcOk(s: State, pc: Pc, from: nat) {
    var since, locks := SinceLock(s.log, from), LocksSince(s.log, from);
    && (pc.Validating? || pc.Reading? || pc.Counting? || pc.ReadingCount? || pc.Locking? ==> locks <= 1)
    && (pc.Counting? ==> pc.attempts > since)
    && (pc.Locking? || pc.CountingLock? ==> pc.lockCount >= 1)
    && (pc.Locking? && locks == 1 ==> pc.lockCount >= 2)
    && (pc.CountingLock? || pc.Forgetting? ==> since == 0)
  }

  predicate Busy(s: State, c: CallId) {
    c in s.calls && !s.calls[c].Returned?
  }

  /** A call is about to lock the account. */
  ghost predicate LockComes(s: State) {
    exists c :: Busy(s, c) && (s.calls[c].ReadingCount? || s.calls[c].Locking?)
  }

  /** A call has locked the account, and is about to count that. */
  ghost predicate CountComes(s: State) {
    exists c :: Busy(s, c) && s.calls[c].CountingLock?
  }

  /**
    Before the window is over: a failure in it stays counted until a lock, the
    fifth locks, and the second lock lasts until the window is over.
   */
  ghost predicate CountedOk(s: State, from: nat) {
    var since, locks := SinceLock(s.log, from), LocksSince(s.log, from);
    var end := from + ATTEMPT_WINDOW_MS;
    && (since > 0 ==> s.attempts.Some? && s.attempts.value.value >= since && s.attempts.value.expires >= end)
    && (since == 5 ==> LockComes(s))
    && since <= 5
    && Failures(s.log, from) <= 5 * locks + since
    && (locks >= 1 ==>
          || CountComes(s)
          || (s.count.Some? && s.count.value.value >= 1 && s.count.value.expires >= end))
    && (locks >= 2 ==> since == 0 && s.locked.Some? && s.locked.value.expires >= end)
    && locks <= 2
  }

  ghost predicate Alone(s: State) {
    forall c, d | Busy(s, c) && Busy(s, d) :: c == d
  }

  ghost predicate WindowInv(s: State, from: nat) {
    && Alone(s)
    && Failures(s.log, from) <= 10
    && (s.now < from ==> Failures(s.log, from) == SinceLock(s.log, from) == LocksSince(s.log, from) == 0)
    && (s.now < from + ATTEMPT_WINDOW_MS ==>
          CountedOk(s, from) && forall c | c in s.calls :: PcOk(s, s.calls[c], from))
  }

  lemma OthersHaveReturned(s: State, t: State, c: CallId)
    requires Alone(s) && Busy(s, c) && c in t.calls && t.calls == s.calls[c := t.calls[c]]
    ensures Alone(t) && forall d | d in t.calls && d != c :: t.calls[d].Returned?
  {
    forall d | d in t.calls && d != c ensures t.calls[d].Returned? { assert !Busy(s, d); }
  }

  lemma CountingKeeps(s: State, c: CallId, from: nat)
    requires WindowInv(s, from) && c in s.calls && s.calls[c].Counting?
    ensures WindowInv(Does(s, c, s.calls[c]), from)
  {
    var t := Does(s, c, s.calls[c]);
    Logs(s.log, Failure(s.now), from);
    assert Busy(s, c);
    OthersHaveReturned(s, t, c);
    if s.now < from + ATTEMPT_WINDOW_MS {
      assert PcOk(s, s.calls[c], from);
      assert !LockComes(s) && !CountComes(s);
      if s.calls[c].attempts >= MAX_ATTEMPTS { assert LockComes(t) by { assert Busy(t, c); } }
    }
  }

  lemma LockingKeeps(s: State, c: CallId, from: nat)
    requires WindowInv(s, from) && c in s.calls && (s.calls[c].ReadingCount? || s.calls[c].Locking? || s.calls[c].CountingLock?)
    ensures WindowInv(Does(s, c, s.calls[c]), from)
  {
    var t := Does(s, c, s.calls[c]);
    Logs(s.log, Lock(s.now), from);
    assert Busy(s, c) && Busy(t, c);
    OthersHaveReturned(s, t, c);
    if s.now < from + ATTEMPT_WINDOW_MS { assert PcOk(s, s.calls[c], from); }
    if s.calls[c].ReadingCount? { assert !CountComes(s) && (LockComes(s) ==> LockComes(t)); }
    if s.calls[c].Locking? { assert CountComes(t); }
  }

  lemma ClearingKeeps(s: State, c: CallId, from: nat)
    requires WindowInv(s, from) && c in s.calls && (s.calls[c].ClearingAttempts? || s.calls[c].ClearingLock?)
    requires Uncleared(Does(s, c, s.calls[c]).log, from)
    ensures WindowInv(Does(s, c, s.calls[c]), from)
  {
    var t := Does(s, c, s.calls[c]);
    Logs(s.log, Clear(s.now), from);
    assert Busy(s, c);
    OthersHaveReturned(s, t, c);
    assert t.log[|s.log|] == Clear(s.now);
  }

  lemma DoesKeeps(s: State, c: CallId, from: nat)
    requires WindowInv(s, from) && c in s.calls && Uncleared(Does(s, c, s.calls[c]).log, from)
    ensures WindowInv(Does(s, c, s.calls[c]), from)
  {
    match s.calls[c]
    case Counting(_) => CountingKeeps(s, c, from);
    case ReadingCount => LockingKeeps(s, c, from);
    case Locking(_) => LockingKeeps(s, c, from);
    case CountingLock(_) => LockingKeeps(s, c, from);
    case ClearingAttempts(_) => ClearingKeeps(s, c, from);
    case ClearingLock(_) => ClearingKeeps(s, c, from);
    case _ => LooksKeeps(s, c, from);
  }

  lemma LooksKeeps(s: State, c: CallId, from: nat)
    requires WindowInv(s, from) && c in s.calls
    requires var pc := s.calls[c]; pc.Gate? || pc.Validating? || pc.Reading? || pc.Forgetting? || pc.Returned?
    ensures WindowInv(Does(s, c, s.calls[c]), from)
  {
    var t := Does(s, c, s.calls[c]);
    if s.calls[c].Returned? {
      assert t == s;
    } else {
      assert Busy(s, c);
      OthersHaveReturned(s, t, c);
      if s.now < from + ATTEMPT_WINDOW_MS { assert PcOk(s, s.calls[c], from); }
      assert !LockComes(s) && !CountComes(s);
    }
  }

  lemma ElapseKeeps(s: State, ms: nat, from: nat)
    requires WindowInv(s, from)
    ensures WindowInv(After(s, Elapse(ms)), from)
  {
    var t := After(s, Elapse(ms));
    assert forall c :: Busy(s, c) <==> Busy(t, c);
    assert (LockComes(s) ==> LockComes(t)) && (CountComes(s) ==> CountComes(t));
  }

  lemma StepKeeps(s: State, e: Step, from: nat)
    requires WindowInv(s, from) && (e.Login? || e.Unlock? ==> AllReturned(s)) && Uncleared(After(s, e).log, from)
    ensures WindowInv(After(s, e), from)
  {
    match e
    case Act(c) => if c in s.calls { DoesKeeps(s, c, from); }
    case Login(c, _) => assert !LockComes(s) && !CountComes(s);
    case Unlock(c) => assert !LockComes(s) && !CountComes(s);
    case Elapse(ms) => ElapseKeeps(s, ms, from);
  }

  lemma StepLogs(s: State, e: Step)
    ensures s.log <= After(s, e).log
  {
  }

  lemma {:induction false} RunLogs(s: State, trace: seq<Step>)
    ensures s.log <= Run(s, trace).log
    decreases |trace|
  {
    if trace != [] {
      StepLogs(s, trace[0]);
      RunLogs(After(s, trace[0]), trace[1..]);
    }
  }

  lemma UnclearedBefore(log: seq<Happened>, more: seq<Happened>, from: nat)
    requires log <= more && Uncleared(more, from)
    ensures Uncleared(log, from)
  {
    forall i | 0 <= i < |log| && log[i].Clear? ensures !InWindow(log[i].at, from) { assert log[i] == more[i]; }
  }

  lemma {:induction false} RunKeeps(s: State, trace: seq<Step>, from: nat)
    requires WindowInv(s, from) && NoOverlap(s, trace) && Uncleared(Run(s, trace).log, from)
    ensures WindowInv(Run(s, trace), from)
    decreases |trace|
  {
    if trace != [] {
      var t := After(s, trace[0]);
      RunLogs(t, trace[1..]);
      UnclearedBefore(t.log, Run(s, trace).log, from);
      StepKeeps(s, trace[0], from);
      RunKeeps(t, trace[1..], from);
    }
  }

  // ---- Main results --------------------------------------------------------

  /**
    When the calls of an email never overlap, no window of thirty minutes without
    a clear sees more than ten recorded failures, however long the calls take
    between one cache operation and the next.
   */
  lemma AtMostTenUnlessCallsOverlap(trace: seq<Step>, from: nat)
    requires NoOverlap(EMPTY, trace) && Uncleared(Run(EMPTY, trace).log, from)
    ensures Failures(Run(EMPTY, trace).log, from) <= 10
  {
    RunKeeps(EMPTY, trace, from);
  }

  // ---- Overlapping calls ---------------------------------------------------

  lemma {:induction false} RunConcat(s: State, a: seq<Step>, b: seq<Step>)
    ensures Run(s, a + b) == Run(Run(s, a), b)
    decreases |a|
  {
    if a == [] {
      assert a + b == b;
    } else {
      assert (a + b)[1..] == a[1..] + b;
      RunConcat(After(s, a[0]), a[1..], b);
    }
  }

  /** Calls 0 to n - 1, one after the other, pass the gate and read the counter. */
  function AllRead(n: nat): seq<Step> {
    if n == 0 then [] else AllRead(n - 1) + [Login(n - 1, false), Act(n - 1), Act(n - 1), Act(n - 1)]
  }

  /** Then each of the first m of them writes it. */
  function AllWrite(m: nat): seq<Step> {
    if m == 0 then [] else AllWrite(m - 1) + [Act(m - 1)]
  }

  /** `n` calls have read a counter of zero. */
  ghost predicate HaveRead(s: State, n: nat) {
    && s.attempts == s.locked == s.count == None && s.now == 0 && s.log == []
    && forall c: nat :: (c in s.calls <==> c < n) && (c < n ==> s.calls[c] == Counting(1))
  }

  lemma OneReads(s: State, c: nat)
    requires HaveRead(s, c)
    ensures HaveRead(Run(s, [Login(c, false), Act(c), Act(c), Act(c)]), c + 1)
  {
    var t1 := After(s, Login(c, false));
    var t2 := After(t1, Act(c));
    var t3 := After(t2, Act(c));
    var t4 := After(t3, Act(c));
    assert Run(t3, [Act(c)]) == Run(t4, []);
    assert Run(t2, [Act(c), Act(c)]) == Run(t3, [Act(c)]);
    assert Run(t1, [Act(c), Act(c), Act(c)]) == Run(t2, [Act(c), Act(c)]);
    assert Run(s, [Login(c, false), Act(c), Act(c), Act(c)]) == Run(t1, [Act(c), Act(c), Act(c)]);
    assert t4.calls[c] == Counting(1);
  }

  lemma {:induction false} AllHaveRead(n: nat)
    ensures HaveRead(Run(EMPTY, AllRead(n)), n)
  {
    if n > 0 {
      AllHaveRead(n - 1);
      RunConcat(EMPTY, AllRead(n - 1), [Login(n - 1, false), Act(n - 1), Act(n - 1), Act(n - 1)]);
      OneReads(Run(EMPTY, AllRead(n - 1)), n - 1);
    }
  }

  lemma {:induction false} AllHaveWritten(s: State, n: nat, m: nat)
    requires HaveRead(s, n) && m <= n
    ensures var t := Run(s, AllWrite(m));
            && Failures(t.log, 0) == m && t.now == 0 && t.locked == None
            && (forall h | h in t.log :: h.Failure?)
            && (forall c: nat :: (c in t.calls <==> c < n) && (m <= c < n ==> t.calls[c] == Counting(1)))
  {
    if m > 0 {
      AllHaveWritten(s, n, m - 1);
      var t := Run(s, AllWrite(m - 1));
      RunConcat(s, AllWrite(m - 1), [Act(m - 1)]);
      assert Run(t, [Act(m - 1)]) == Run(After(t, Act(m - 1)), []);
      Logs(t.log, Failure(0), 0);
    }
  }

  /**
    When they may overlap, any number of failures can be recorded at one moment,
    and the account is not even locked: every call has read the counter before
    the first one writes it.
   */
  lemma OverlappingLoginsAreUnbounded(n: nat)
    ensures var t := Run(EMPTY, AllRead(n) + AllWrite(n));
            && Uncleared(t.log, 0) && Failures(t.log, 0) == n
            && LocksSince(t.log, 0) == 0 && t.locked == None
  {
    AllHaveRead(n);
    RunConcat(EMPTY, AllRead(n), AllWrite(n));
    AllHaveWritten(Run(EMPTY, AllRead(n)), n, n);
    OnlyFailures(Run(EMPTY, AllRead(n) + AllWrite(n)).log, 0);
  }

  lemma {:induction false} OnlyFailures(log: seq<Happened>, from: nat)
    requires forall h | h in log :: h.Failure?
    ensures LocksSince(log, from) == 0 && Uncleared(log, from)
  {
    forall i | 0 <= i < |log| ensures log[i].Failure? { assert log[i] in log; }
    if log != [] {
      assert log[|log| - 1] in log;
      OnlyFailures(log[..|log| - 1], from);
    }
  }

  // ---- A call that is alone ------------------------------------------------

  /** The cache of the email, entry by entry. */
  function CacheOf(s: State, email: string): (cache: map<LockoutService.CacheKey, Entry>)
  {
    var a := if s.attempts.Some? then map[LockoutService.AttemptsKey(email) := s.attempts.value] else map[];
    var l := if s.locked.Some? then map[LockoutService.LockedKey(email) := s.locked.value] else map[];
    var n := if s.count.Some? then map[LockoutService.CountKey(email) := s.count.value] else map[];
    a + l + n
  }

  ghost predicate Shows(s: State, email: string, h: History) {
    LockoutService.EmailOk(CacheOf(s, email), email, h, s.now)
  }

  lemma CacheHas(s: State, email: string)
    ensures var cache, a, l, n := CacheOf(s, email), LockoutService.AttemptsKey(email), LockoutService.LockedKey(email),
                LockoutService.CountKey(email);
            && (a in cache <==> s.attempts.Some?) && (a in cache ==> cache[a] == s.attempts.value)
            && (l in cache <==> s.locked.Some?) && (l in cache ==> cache[l] == s.locked.value)
            && (n in cache <==> s.count.Some?) && (n in cache ==> cache[n] == s.count.value)
  {
  }

  /** What the three reads find, as the history tells it. */
  lemma ReadsTell(s: State, email: string, h: History)
    requires Shows(s, email, h)
    ensures Live(s.locked, s.now).Some? <==> LockedAt(h, s.now)
    ensures OrZero(Live(s.count, s.now)) == LockCount(h, s.now)
    ensures var attempts := OrZero(Live(s.attempts, s.now)) + 1;
            && (attempts >= MAX_ATTEMPTS <==> Locks(h + [Failed(s.now)]))
            && (attempts < MAX_ATTEMPTS ==> Streak(h + [Failed(s.now)]) == attempts)
  {
    CacheHas(s, email);
    LockoutService.CacheTells(CacheOf(s, email), email, h, s.now);
  }

  /** A call goes on for up to `n` steps with nothing in between. */
  function GoesOn(s: State, c: CallId, n: nat): State
    requires c in s.calls
    decreases n
  {
    if n == 0 then s else GoesOn(Does(s, c, s.calls[c]), c, n - 1)
  }

  function Steps(c: CallId, n: nat): seq<Step> {
    if n == 0 then [] else [Act(c)] + Steps(c, n - 1)
  }

  lemma {:induction false} GoingOnIsARun(s: State, c: CallId, n: nat)
    requires c in s.calls
    ensures Run(s, Steps(c, n)) == GoesOn(s, c, n)
    decreases n
  {
    if n > 0 {
      assert Steps(c, n)[1..] == Steps(c, n - 1);
      GoingOnIsARun(Does(s, c, s.calls[c]), c, n - 1);
    }
  }

  lemma {:induction false} Rests(s: State, c: CallId, n: nat)
    requires c in s.calls && s.calls[c].Returned?
    ensures GoesOn(s, c, n) == s
    decreases n
  {
    if n > 0 { Rests(s, c, n - 1); }
  }

  /** The call has returned, the others are where they were, and the cache shows the history. */
  ghost predicate EndsWith(s: State, t: State, c: CallId, outcome: Outcome, email: string, h: History) {
    t.calls == s.calls[c := Returned(outcome)] && t.now == s.now && Shows(t, email, h)
  }

  /** The state in which a call returns that has locked the account for the `k`-th time. */
  function LockedBy(s: State, c: CallId, k: nat): State
    requires k > 0
  {
    var until := s.now + Duration(k);
    s.(attempts := None,
       locked := Some(LockoutService.Entry(until, until)),
       count := Some(LockoutService.Entry(k, s.now + CHAIN_WINDOW_MS)),
       log := s.log + [Lock(s.now)],
       calls := s.calls[c := Returned(InvalidCredentials)])
  }

  lemma LockSteps(s: State, c: CallId, k: nat, n: nat)
    requires c in s.calls && s.calls[c] == ReadingCount && k == OrZero(Live(s.count, s.now)) + 1 && n >= 4
    ensures GoesOn(s, c, n) == LockedBy(s, c, k)
  {
    var t1 := Go(s, c, Locking(k));
    var t2 := Does(t1, c, Locking(k));
    var t3 := Does(t2, c, CountingLock(k));
    var t4 := Does(t3, c, Forgetting);
    assert GoesOn(s, c, n) == GoesOn(t1, c, n - 1);
    assert GoesOn(t1, c, n - 1) == GoesOn(t2, c, n - 2);
    assert GoesOn(t2, c, n - 2) == GoesOn(t3, c, n - 3);
    assert GoesOn(t3, c, n - 3) == GoesOn(t4, c, n - 4);
    Rests(t4, c, n - 4);
    assert t4.calls == s.calls[c := Returned(InvalidCredentials)];
  }

  lemma LoneLock(s: State, c: CallId, n: nat, email: string, h: History)
    requires c in s.calls && s.calls[c] == ReadingCount && Locks(h + [Failed(s.now)])
    requires OrZero(Live(s.count, s.now)) == LockCount(h, s.now)
    requires LockoutService.Timely(h, s.now) && n >= 4
    ensures EndsWith(s, GoesOn(s, c, n), c, InvalidCredentials, email, h + [Failed(s.now)])
  {
    var k := LockCount(h, s.now) + 1;
    LockSteps(s, c, k, n);
    LockoutService.LockReports(h, s.now);
    LockoutService.TimelyAppend(h, Failed(s.now));
    CacheHas(LockedBy(s, c, k), email);
    LockoutService.LockingRefines(CacheOf(LockedBy(s, c, k), email), email, h, s.now, k);
  }

  lemma LoneCount(s: State, t: State, email: string, h: History)
    requires Shows(s, email, h) && !Locks(h + [Failed(s.now)])
    requires t.attempts == Some(LockoutService.Entry(Streak(h + [Failed(s.now)]), s.now + ATTEMPT_WINDOW_MS))
    requires t.locked == s.locked && t.count == s.count && t.now == s.now
    ensures Shows(t, email, h + [Failed(s.now)])
  {
    LockoutService.TimelyAppend(h, Failed(s.now));
    CacheHas(s, email);
    CacheHas(t, email);
    LockoutService.CountingRefines(CacheOf(s, email), CacheOf(t, email), email, h, s.now);
  }

  /** From the third step on: the counter is read and written, and the account locked if need be. */
  lemma LoneFailure(s: State, c: CallId, n: nat, email: string, h: History)
    requires c in s.calls && s.calls[c] == Reading && Shows(s, email, h) && n >= 6
    ensures EndsWith(s, GoesOn(s, c, n), c, InvalidCredentials, email, h + [Failed(s.now)])
  {
    ReadsTell(s, email, h);
    var attempts := OrZero(Live(s.attempts, s.now)) + 1;
    var t1 := Go(s, c, Counting(attempts));
    var t2 := Does(t1, c, t1.calls[c]);
    assert GoesOn(s, c, n) == GoesOn(t1, c, n - 1);
    assert GoesOn(t1, c, n - 1) == GoesOn(t2, c, n - 2);
    assert t2.calls == s.calls[c := t2.calls[c]];
    if attempts < MAX_ATTEMPTS {
      LoneCount(s, t2, email, h);
      Rests(t2, c, n - 2);
    } else {
      LoneLock(t2, c, n - 2, email, h);
      assert s.calls[c := ReadingCount][c := Returned(InvalidCredentials)] == s.calls[c := Returned(InvalidCredentials)];
    }
  }

  lemma LoneClear(s: State, c: CallId, n: nat, outcome: Outcome, email: string, h: History)
    requires c in s.calls && s.calls[c] == ClearingAttempts(outcome) && Shows(s, email, h) && n >= 2
    ensures EndsWith(s, GoesOn(s, c, n), c, outcome, email, h + [Cleared(s.now)])
  {
    LockoutService.TimelyAppend(h, Cleared(s.now));
    ClearKeepsTheChain(h, s.now);
    var t1 := Does(s, c, s.calls[c]);
    var t2 := Does(t1, c, t1.calls[c]);
    assert GoesOn(s, c, n) == GoesOn(t1, c, n - 1);
    assert GoesOn(t1, c, n - 1) == GoesOn(t2, c, n - 2);
    Rests(t2, c, n - 2);
    assert t2.calls == s.calls[c := Returned(outcome)];
    CacheHas(s, email);
    CacheHas(t2, email);
  }

  /** What `login` comes to when nothing happens in between. */
  ghost predicate LoneResult(s: State, t: State, c: CallId, matches: bool, email: string, h: History) {
    if LockedAt(h, s.now) then EndsWith(s, t, c, Refused, email, h)
    else if matches then EndsWith(s, t, c, LoggedIn, email, h + [Cleared(s.now)])
    else EndsWith(s, t, c, InvalidCredentials, email, h + [Failed(s.now)])
  }

  lemma LoneGate(s: State, c: CallId, matches: bool, n: nat, email: string, h: History)
    requires c !in s.calls && Shows(s, email, h) && n >= 8
    ensures LoneResult(s, GoesOn(Go(s, c, Gate(matches)), c, n), c, matches, email, h)
  {
    var t0 := Go(s, c, Gate(matches));
    ReadsTell(s, email, h);
    if LockedAt(h, s.now) {
      var t1 := Go(s, c, Returned(Refused));
      assert Does(t0, c, Gate(matches)) == t1 by { assert t0.calls[c := Returned(Refused)] == t1.calls; }
      assert GoesOn(t0, c, n) == GoesOn(t1, c, n - 1);
      Rests(t1, c, n - 1);
      SameCache(s, t1, email, h);
    } else {
      var t2 := Go(s, c, if matches then ClearingAttempts(LoggedIn) else Reading);
      PassesGate(s, c, matches, n);
      SameCache(s, t2, email, h);
      LonePassed(s, t2, c, matches, n - 2, email, h);
    }
  }

  lemma PassesGate(s: State, c: CallId, matches: bool, n: nat)
    requires Live(s.locked, s.now).None? && n >= 2
    ensures GoesOn(Go(s, c, Gate(matches)), c, n)
         == GoesOn(Go(s, c, if matches then ClearingAttempts(LoggedIn) else Reading), c, n - 2)
  {
    var t0, t1 := Go(s, c, Gate(matches)), Go(s, c, Validating(matches));
    var t2 := Go(s, c, if matches then ClearingAttempts(LoggedIn) else Reading);
    assert Does(t0, c, Gate(matches)) == t1 by { assert t0.calls[c := Validating(matches)] == t1.calls; }
    assert Does(t1, c, Validating(matches)) == t2 by { assert t1.calls[c := t2.calls[c]] == t2.calls; }
    assert GoesOn(t0, c, n) == GoesOn(t1, c, n - 1);
    assert GoesOn(t1, c, n - 1) == GoesOn(t2, c, n - 2);
  }

  /**
    A login that runs alone and at one moment does to the history and the cache
    what it does as one atomic call.  It takes eight steps at most.
   */
  lemma LoneLoginIsAtomic(s: State, c: CallId, matches: bool, n: nat, email: string, h: History)
    requires c !in s.calls && Shows(s, email, h) && n >= 8
    ensures LoneResult(s, Run(s, [Login(c, matches)] + Steps(c, n)), c, matches, email, h)
  {
    var t0 := Go(s, c, Gate(matches));
    assert ([Login(c, matches)] + Steps(c, n))[1..] == Steps(c, n);
    assert Run(s, [Login(c, matches)] + Steps(c, n)) == Run(t0, Steps(c, n));
    GoingOnIsARun(t0, c, n);
    LoneGate(s, c, matches, n, email, h);
  }

  lemma SameCache(s: State, t: State, email: string, h: History)
    requires Shows(s, email, h) && s.attempts == t.attempts && s.locked == t.locked && s.count == t.count && s.now == t.now
    ensures Shows(t, email, h)
  {
    assert CacheOf(s, email) == CacheOf(t, email);
  }

  lemma LonePassed(s: State, t: State, c: CallId, matches: bool, n: nat, email: string, h: History)
    requires Shows(t, email, h) && t.now == s.now && c in t.calls && n >= 6
    requires t.calls == s.calls[c := if matches then ClearingAttempts(LoggedIn) else Reading]
    ensures if matches then EndsWith(s, GoesOn(t, c, n), c, LoggedIn, email, h + [Cleared(s.now)])
            else EndsWith(s, GoesOn(t, c, n), c, InvalidCredentials, email, h + [Failed(s.now)])
  {
    if matches {
      LoneClear(t, c, n, LoggedIn, email, h);
      assert t.calls[c := Returned(LoggedIn)] == s.calls[c := Returned(LoggedIn)];
    } else {
      LoneFailure(t, c, n, email, h);
      assert t.calls[c := Returned(InvalidCredentials)] == s.calls[c := Returned(InvalidCredentials)];
    }
  }
}
