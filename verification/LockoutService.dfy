/**
  `LockoutService` over its three expiring cache entries per email, and
  `AuthService.login` as the gate in front of it.  A ghost history per email
  records what happened; the cache is proved to refine it.
 */
module LockoutService {
  import opened Options
  import opened LockoutHistory
  import opened LockoutMeaning

  datatype CacheKey = AttemptsKey(email: string) | LockedKey(email: string) | CountKey(email: string)

  /** The decimal and ISO strings of the cache are modelled by the numbers they denote. */
  datatype Entry = Entry(value: nat, expires: nat)

  datatype LockoutStatus = LockoutStatus(
    isLocked: bool,
    attemptsRemaining: nat,
    lockedUntil: Option<nat>,
    lockCount: nat)

  datatype LoginResult = Locked | InvalidCredentials | LoggedIn

  /** The entries of one email are exactly what its history says. */
  ghost predicate Refines(cache: map<CacheKey, Entry>, email: string, h: History) {
    && (if Streak(h) > 0 then
          h != [] && AttemptsKey(email) in cache
          && cache[AttemptsKey(email)] == Entry(Streak(h), Last(h).at + ATTEMPT_WINDOW_MS)
        else AttemptsKey(email) !in cache)
    && (if LockedUntil(h).Some? then
          LockedKey(email) in cache
          && cache[LockedKey(email)] == Entry(LockedUntil(h).value, LockedUntil(h).value)
        else LockedKey(email) !in cache)
    && (var times := LockTimes(h);
        if times != [] then
          CountKey(email) in cache
          && cache[CountKey(email)] == Entry(ChainLength(times), times[|times| - 1] + CHAIN_WINDOW_MS)
        else CountKey(email) !in cache)
  }

  function Of(histories: map<string, History>, email: string): History {
    if email in histories then histories[email] else []
  }

  ghost predicate Timely(h: History, now: nat) {
    Ordered(h) && (h != [] ==> Last(h).at <= now)
  }

  ghost predicate EmailOk(cache: map<CacheKey, Entry>, email: string, h: History, now: nat) {
    Refines(cache, email, h) && Timely(h, now)
  }

  lemma TimelyAppend(h: History, e: Event)
    requires Timely(h, e.at)
    ensures Timely(h + [e], e.at)
  {
  }

  ghost predicate AllOk(cache: map<CacheKey, Entry>, histories: map<string, History>, now: nat) {
    forall email :: EmailOk(cache, email, Of(histories, email), now)
  }

  ghost predicate AllGated(histories: map<string, History>) {
    forall email :: Gated(Of(histories, email))
  }

  lemma FailureExtends(h: History, at: nat)
    ensures var h' := h + [Failed(at)];
            && Front(h') == h && Last(h') == Failed(at)
            && LockTimes(h') == (if Locks(h') then LockTimes(h) + [at] else LockTimes(h))
  {
    assert Front(h + [Failed(at)]) == h;
  }

  lemma ChainExtends(times: seq<nat>, at: nat)
    ensures ChainLength(times + [at])
         == (if times != [] && at - times[|times| - 1] < CHAIN_WINDOW_MS then ChainLength(times) + 1 else 1)
  {
    assert (times + [at])[..|times|] == times;
  }

  /** The attempt count that the next failure stores, as the cache of `h` shows it at time `at`. */
  lemma NextAttempt(h: History, at: nat)
    ensures var current := if Streak(h) > 0 && at < Last(h).at + ATTEMPT_WINDOW_MS then Streak(h) else 0;
            var h' := h + [Failed(at)];
            && (Locks(h') <==> current + 1 == 5)
            && (!Locks(h') ==> Streak(h') == current + 1)
            && (Locks(h') ==> Streak(h') == 0)
  {
    FailureExtends(h, at);
  }

  lemma CountingRefines(cache: map<CacheKey, Entry>, cache': map<CacheKey, Entry>, email: string, h: History, at: nat)
    requires Refines(cache, email, h) && !Locks(h + [Failed(at)])
    requires AttemptsKey(email) in cache'
    requires cache'[AttemptsKey(email)] == Entry(Streak(h + [Failed(at)]), at + ATTEMPT_WINDOW_MS)
    requires forall k | k in {LockedKey(email), CountKey(email)} ::
               (k in cache <==> k in cache') && (k in cache ==> cache[k] == cache'[k])
    ensures Refines(cache', email, h + [Failed(at)])
  {
    FailureExtends(h, at);
    NextAttempt(h, at);
    assert LockedKey(email) in {LockedKey(email), CountKey(email)};
    assert CountKey(email) in {LockedKey(email), CountKey(email)};
  }

  /** The failure is counted, and the attempts that remain are reported. */
  lemma StillCounting(cache: map<CacheKey, Entry>, cache': map<CacheKey, Entry>, email: string, h: History, at: nat, n: nat)
    requires EmailOk(cache, email, h, at) && n == Live(cache, AttemptsKey(email), at) + 1 && n < MAX_ATTEMPTS
    requires cache' == cache[AttemptsKey(email) := Entry(n, at + ATTEMPT_WINDOW_MS)]
    ensures Refines(cache', email, h + [Failed(at)]) && OnlyTouches(cache, cache', email)
    ensures Live(cache', CountKey(email), at) == Live(cache, CountKey(email), at)
    ensures Reports(LockoutStatus(false, MAX_ATTEMPTS - n, None, Live(cache, CountKey(email), at)), h + [Failed(at)], at)
  {
    CacheTells(cache, email, h, at);
    CountReports(h, at);
    CountingRefines(cache, cache', email, h, at);
  }

  lemma LockingRefines(cache': map<CacheKey, Entry>, email: string, h: History, at: nat, n: nat)
    requires Locks(h + [Failed(at)]) && n == ChainLength(LockTimes(h + [Failed(at)])) && n > 0
    requires LockedKey(email) in cache' && cache'[LockedKey(email)] == Entry(at + Duration(n), at + Duration(n))
    requires CountKey(email) in cache' && cache'[CountKey(email)] == Entry(n, at + CHAIN_WINDOW_MS)
    requires AttemptsKey(email) !in cache'
    ensures Refines(cache', email, h + [Failed(at)])
  {
    FailureExtends(h, at);
    NextAttempt(h, at);
    LockingIsTimed(h + [Failed(at)]);
  }

  /** What a read of the cache at time `at` yields. */
  function Live(cache: map<CacheKey, Entry>, key: CacheKey, at: nat): nat {
    if key in cache && at < cache[key].expires then cache[key].value else 0
  }

  /** What `recordFailedAttempt` answers after a failure that made the history `h`. */
  ghost predicate Reports(r: LockoutStatus, h: History, now: nat) {
    && (r.isLocked <==> Locks(h))
    && r.attemptsRemaining == (if Locks(h) then 0 else MAX_ATTEMPTS - Streak(h))
    && (r.isLocked ==> r.lockedUntil == LockedUntil(h))
    && r.lockCount == LockCount(h, now)
  }

  /**
    The same in plain numbers: locked by the fifth of five failures in a row, for
    as long as the chain of locks within seven days has it.
   */
  ghost predicate ReportsPlainly(r: LockoutStatus, h: History, now: nat)
    requires h != []
  {
    var i := |h| - 1;
    && (r.isLocked <==> FiveFail(h, i) && forall n {:trigger LocksAt(h, n)} | i - 4 <= n < i :: !LocksAt(h, n))
    && (r.isLocked ==>
          && r.attemptsRemaining == 0
          && exists locks {:trigger IsChain(h, locks, i)} ::
               IsChain(h, locks, i) && r.lockCount == |locks| && r.lockedUntil == Some(now + LockMs(|locks|)))
    && (!r.isLocked ==> r.attemptsRemaining == 5 - Streak(h) && r.attemptsRemaining > 0)
  }

  lemma PlainReport(r: LockoutStatus, h: History, now: nat)
    requires h != [] && Last(h) == Failed(now) && Reports(r, h, now)
    ensures ReportsPlainly(r, h, now)
  {
    var i := |h| - 1;
    assert h[..i + 1] == h;
    LocksIff(h, i);
    if r.isLocked {
      var locks := ChainOf(h, i);
      LockLasts(h, locks, i);
      LockCountMeans(h, now, i, locks);
      assert IsChain(h, locks, i);
    }
  }

  /** What the cache of a history tells the code that records the next failure. */
  lemma CacheTells(cache: map<CacheKey, Entry>, email: string, h: History, at: nat)
    requires EmailOk(cache, email, h, at)
    ensures var attempts, locks := Live(cache, AttemptsKey(email), at) + 1, Live(cache, CountKey(email), at);
            var h' := h + [Failed(at)];
            && (attempts >= MAX_ATTEMPTS <==> Locks(h'))
            && (!Locks(h') ==> Streak(h') == attempts)
            && LockCount(h, at) == locks
  {
    NextAttempt(h, at);
  }

  lemma LockReports(h: History, at: nat)
    requires Locks(h + [Failed(at)])
    ensures var n := LockCount(h, at) + 1;
            && ChainLength(LockTimes(h + [Failed(at)])) == n
            && Reports(LockoutStatus(true, 0, Some(at + Duration(n)), n), h + [Failed(at)], at)
  {
    FailureExtends(h, at);
    ChainExtends(LockTimes(h), at);
  }

  lemma CountReports(h: History, at: nat)
    requires !Locks(h + [Failed(at)])
    ensures var h' := h + [Failed(at)];
            Reports(LockoutStatus(false, MAX_ATTEMPTS - Streak(h'), None, LockCount(h, at)), h', at)
  {
    FailureExtends(h, at);
  }

  /** The entries of every other email are untouched. */
  ghost predicate OnlyTouches(cache: map<CacheKey, Entry>, cache': map<CacheKey, Entry>, email: string) {
    forall k: CacheKey | k.email != email ::
      (k in cache <==> k in cache') && (k in cache ==> cache[k] == cache'[k])
  }

  lemma OtherKept(cache: map<CacheKey, Entry>, cache': map<CacheKey, Entry>, email: string,
                  other: string, h: History, now: nat)
    requires EmailOk(cache, other, h, now) && OnlyTouches(cache, cache', email) && other != email
    ensures EmailOk(cache', other, h, now)
  {
    var a, l, n := AttemptsKey(other), LockedKey(other), CountKey(other);
    assert a.email != email && l.email != email && n.email != email;
  }

  lemma OwnKept(cache: map<CacheKey, Entry>, cache': map<CacheKey, Entry>, email: string, h: History, e: Event)
    requires EmailOk(cache, email, h, e.at) && Refines(cache', email, h + [e])
    ensures EmailOk(cache', email, h + [e], e.at)
  {
    TimelyAppend(h, e);
  }

  /** After an event of one email, all the others are as they were. */
  lemma AllKept(cache: map<CacheKey, Entry>, cache': map<CacheKey, Entry>,
                histories: map<string, History>, email: string, e: Event)
    requires AllOk(cache, histories, e.at) && OnlyTouches(cache, cache', email)
    requires Refines(cache', email, Of(histories, email) + [e])
    ensures AllOk(cache', histories[email := Of(histories, email) + [e]], e.at)
  {
    var histories' := histories[email := Of(histories, email) + [e]];
    forall o ensures EmailOk(cache', o, Of(histories', o), e.at) {
      assert EmailOk(cache, o, Of(histories, o), e.at);
      if o == email { OwnKept(cache, cache', email, Of(histories, email), e); }
      else { OtherKept(cache, cache', email, o, Of(histories, o), e.at); }
    }
  }

  lemma AllGatedAppend(histories: map<string, History>, email: string, e: Event)
    requires AllGated(histories) && (e.Failed? ==> !LockedAt(Of(histories, email), e.at))
    ensures AllGated(histories[email := Of(histories, email) + [e]])
  {
    var h := Of(histories, email);
    var histories' := histories[email := h + [e]];
    forall o ensures Gated(Of(histories', o)) {
      assert Gated(Of(histories, o));
      if o == email { GatedAppend(h, e); }
    }
  }

  class LockoutService {
    var cache: map<CacheKey, Entry>
    var now: nat
    ghost var histories: map<string, History>

    ghost function HistoryOf(email: string): History
      reads this
    {
      Of(histories, email)
    }

    ghost predicate Valid()
      reads this
    {
      AllOk(cache, histories, now)
    }

    ghost predicate Appended(before: map<string, History>, email: string, e: Event)
      reads this
    {
      histories == before[email := Of(before, email) + [e]]
    }

    constructor ()
      ensures Valid() && now == 0 && histories == map[]
    {
      cache, now, histories := map[], 0, map[];
    }

    method Elapse(ms: nat)
      requires Valid()
      modifies this`now
      ensures Valid() && now == old(now) + ms
    {
      now := now + ms;
      forall email ensures EmailOk(cache, email, Of(histories, email), now) {
        assert EmailOk(cache, email, Of(histories, email), old(now));
      }
    }

    /** An entry is gone once its time to live is over. */
    method Get(key: CacheKey) returns (value: Option<nat>)
      ensures value == if key in cache && now < cache[key].expires then Some(cache[key].value) else None
    {
      value := if key in cache && now < cache[key].expires then Some(cache[key].value) else None;
    }

    method GetStatus(email: string) returns (r: LockoutStatus)
      requires Valid()
      ensures r.isLocked <==> LockedAt(HistoryOf(email), now)
      ensures r.isLocked ==> r.lockedUntil == LockedUntil(HistoryOf(email)) && r.attemptsRemaining == 0
      ensures !r.isLocked ==> r.attemptsRemaining == 5 - CurrentStreak(email)
      ensures r.lockCount == LockCount(HistoryOf(email), now)
    {
      ghost var h := HistoryOf(email);
      assert EmailOk(cache, email, h, now);
      var locked := Get(LockedKey(email));
      var rawCount := Get(CountKey(email));
      var lockCount := if rawCount.Some? then rawCount.value else 0;
      if locked.Some? {
        return LockoutStatus(true, 0, Some(locked.value), lockCount);
      }
      var raw := Get(AttemptsKey(email));
      var attempts := if raw.Some? then raw.value else 0;
      return LockoutStatus(false, if attempts < MAX_ATTEMPTS then MAX_ATTEMPTS - attempts else 0, None, lockCount);
    }

    /** The streak as it stands now: a streak older than the window no longer counts. */
    ghost function CurrentStreak(email: string): (k: nat)
      reads this
      ensures k < 5
    {
      var h := HistoryOf(email);
      if h != [] && now < Last(h).at + 1_800_000 then Streak(h) else 0
    }

    method RecordFailedAttempt(email: string) returns (r: LockoutStatus)
      requires Valid()
      modifies this`cache, this`histories
      ensures Valid() && Appended(old(histories), email, Failed(now))
      ensures Reports(r, HistoryOf(email), now)
      ensures ReportsPlainly(r, HistoryOf(email), now)
    {
      ghost var h := HistoryOf(email);
      assert EmailOk(cache, email, h, now);
      r := CountAttempt(email, h);
      histories := histories[email := h + [Failed(now)]];
      AllKept(old(cache), cache, old(histories), email, Failed(now));
      PlainReport(r, HistoryOf(email), now);
    }

    method CountAttempt(email: string, ghost h: History) returns (r: LockoutStatus)
      requires EmailOk(cache, email, h, now)
      modifies this`cache
      ensures Refines(cache, email, h + [Failed(now)]) && OnlyTouches(old(cache), cache, email)
      ensures Reports(r, h + [Failed(now)], now)
    {
      CacheTells(cache, email, h, now);
      var raw := Get(AttemptsKey(email));
      var attempts := (if raw.Some? then raw.value else 0) + 1;
      cache := cache[AttemptsKey(email) := Entry(attempts, now + ATTEMPT_WINDOW_MS)];
      if attempts >= MAX_ATTEMPTS {
        LockReports(h, now);
        r := LockAccount(email, h, LockCount(h, now) + 1);
      } else {
        StillCounting(old(cache), cache, email, h, now, attempts);
        r := RemainingAttempts(email, attempts);
      }
    }

    /** The tail of `RecordFailedAttempt`, while attempts remain. */
    method RemainingAttempts(email: string, attempts: nat) returns (r: LockoutStatus)
      requires attempts < MAX_ATTEMPTS
      ensures r == LockoutStatus(false, MAX_ATTEMPTS - attempts, None, Live(cache, CountKey(email), now))
    {
      var rawCount := Get(CountKey(email));
      return LockoutStatus(false, MAX_ATTEMPTS - attempts, None, if rawCount.Some? then rawCount.value else 0);
    }

    /** The tail of `RecordFailedAttempt`, once the attempts are used up. */
    method LockAccount(email: string, ghost h: History, ghost n: nat) returns (r: LockoutStatus)
      requires Locks(h + [Failed(now)]) && n == ChainLength(LockTimes(h + [Failed(now)]))
      requires n == Live(cache, CountKey(email), now) + 1
      modifies this`cache
      ensures Refines(cache, email, h + [Failed(now)]) && OnlyTouches(old(cache), cache, email)
      ensures r == LockoutStatus(true, 0, Some(now + Duration(n)), n)
    {
      var rawCount := Get(CountKey(email));
      var lockCount := (if rawCount.Some? then rawCount.value else 0) + 1;
      assert lockCount == n;
      var duration := LOCKOUT_DURATIONS_MS[if lockCount - 1 < 3 then lockCount - 1 else 3];
      var lockedUntil := now + duration;
      cache := cache[LockedKey(email) := Entry(lockedUntil, now + duration)];
      cache := cache[CountKey(email) := Entry(lockCount, now + CHAIN_WINDOW_MS)];
      cache := cache - {AttemptsKey(email)};
      assert OnlyTouches(old(cache), cache, email);
      LockingRefines(cache, email, h, now, n);
      return LockoutStatus(true, 0, Some(lockedUntil), lockCount);
    }

    method ClearLockout(email: string)
      requires Valid()
      modifies this`cache, this`histories
      ensures Valid() && Appended(old(histories), email, Cleared(now))
    {
      ghost var h := HistoryOf(email);
      assert EmailOk(cache, email, h, now);
      ClearKeepsTheChain(h, now);
      cache := cache - {AttemptsKey(email)};
      cache := cache - {LockedKey(email)};
      histories := histories[email := h + [Cleared(now)]];
      assert Refines(cache, email, h + [Cleared(now)]);
      AllKept(old(cache), cache, old(histories), email, Cleared(now));
    }
  }

  /** The gate: `login` records failures only while the account is not locked. */
  class AuthService {
    const lockout: LockoutService

    constructor (lockout: LockoutService)
      requires lockout.Valid() && lockout.histories == map[]
      ensures this.lockout == lockout && Valid()
    {
      this.lockout := lockout;
    }

    ghost predicate Valid()
      reads this, lockout
    {
      lockout.Valid() && AllGated(lockout.histories)
    }

    method Login(email: string, credentialsMatch: bool) returns (r: LoginResult)
      requires Valid()
      modifies lockout
      ensures Valid() && lockout.now == old(lockout.now)
      ensures r == Locked <==> old(LockedAt(lockout.HistoryOf(email), lockout.now))
      ensures r == LoggedIn <==> credentialsMatch && r != Locked
      ensures r == Locked ==> lockout.histories == old(lockout.histories)
      ensures r == InvalidCredentials ==> lockout.Appended(old(lockout.histories), email, Failed(lockout.now))
      ensures r == LoggedIn ==> lockout.Appended(old(lockout.histories), email, Cleared(lockout.now))
    {
      var status := lockout.GetStatus(email);
      if status.isLocked {
        return Locked;
      }
      if !credentialsMatch {
        AllGatedAppend(lockout.histories, email, Failed(lockout.now));
        var _ := lockout.RecordFailedAttempt(email);
        return InvalidCredentials;
      }
      AllGatedAppend(lockout.histories, email, Cleared(lockout.now));
      lockout.ClearLockout(email);
      return LoggedIn;
    }

    /** An administrator lifts a lock. */
    method Unlock(email: string)
      requires Valid()
      modifies lockout
      ensures Valid() && lockout.Appended(old(lockout.histories), email, Cleared(lockout.now))
    {
      AllGatedAppend(lockout.histories, email, Cleared(lockout.now));
      lockout.ClearLockout(email);
    }

    method Elapse(ms: nat)
      requires Valid()
      modifies lockout
      ensures Valid() && lockout.now == old(lockout.now) + ms && lockout.histories == old(lockout.histories)
    {
      lockout.Elapse(ms);
    }

    /** Whatever is logged in with, no email records more than ten failures in a window without a clear. */
    lemma LoginsAreRateBound(email: string, from: nat)
      requires Valid()
      requires forall e | e in lockout.HistoryOf(email) && e.Cleared? :: !(from <= e.at < from + ATTEMPT_WINDOW_MS)
      ensures |FailuresIn(lockout.HistoryOf(email), from)| <= 10
    {
      assert EmailOk(lockout.cache, email, lockout.HistoryOf(email), lockout.now);
      assert Gated(Of(lockout.histories, email));
      AtMostTenPerWindow(lockout.HistoryOf(email), from);
    }
  }
}
