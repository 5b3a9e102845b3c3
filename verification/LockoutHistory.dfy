/**
  What the login lockout means, written over the history of one email's failed
  attempts and clears.  No counter and no cache entry is mentioned here.
 */
module LockoutHistory {
  import opened Options

  const MAX_ATTEMPTS: nat := 5
  const ATTEMPT_WINDOW_MS: nat := 1_800_000
  const CHAIN_WINDOW_MS: nat := 604_800_000
  const LOCKOUT_DURATIONS_MS: seq<nat> := [900_000, 1_800_000, 3_600_000, 86_400_000]

  datatype Event = Failed(at: nat) | Cleared(at: nat)

  type History = seq<Event>

  ghost predicate Ordered(h: History) {
    forall i, j | 0 <= i <= j < |h| :: h[i].at <= h[j].at
  }

  function Last(h: History): Event
    requires h != []
  {
    h[|h| - 1]
  }

  function Front(h: History): History
    requires h != []
  {
    h[..|h| - 1]
  }

  // ---- Streaks and locks ---------------------------------------------------

  /**
    Failures counted towards the next lock.  A clear, a lock and a gap as long as
    the window start over; the fifth failure of a streak locks.
   */
  function Streak(h: History): (k: nat)
    ensures k < MAX_ATTEMPTS
  {
    if h == [] || Last(h).Cleared? then 0
    else
      var before := if |h| > 1 && Last(h).at - Last(Front(h)).at < ATTEMPT_WINDOW_MS then Streak(Front(h)) else 0;
      if before + 1 == MAX_ATTEMPTS then 0 else before + 1
  }

  /** The last event of the history locks the account. */
  predicate Locks(h: History) {
    h != [] && Last(h).Failed? && Streak(h) == 0
  }

  function LockTimes(h: History): seq<nat> {
    if h == [] then [] else LockTimes(Front(h)) + (if Locks(h) then [Last(h).at] else [])
  }

  /** The length of the chain of locks that ends `times`, each within the window of the one before. */
  function ChainLength(times: seq<nat>): nat {
    if times == [] then 0
    else if |times| > 1 && times[|times| - 1] - times[|times| - 2] < CHAIN_WINDOW_MS then
      ChainLength(times[..|times| - 1]) + 1
    else 1
  }

  function Duration(lockCount: nat): nat
    requires lockCount > 0
  {
    LOCKOUT_DURATIONS_MS[if lockCount - 1 < 3 then lockCount - 1 else 3]
  }

  lemma LockingIsTimed(h: History)
    requires Locks(h)
    ensures LockTimes(h) != [] && ChainLength(LockTimes(h)) > 0
  {
  }

  /** When the lock in force ends; a clear lifts it. */
  function LockedUntil(h: History): Option<nat> {
    if h == [] || Last(h).Cleared? then None
    else if Locks(h) then
      LockingIsTimed(h);
      Some(Last(h).at + Duration(ChainLength(LockTimes(h))))
    else LockedUntil(Front(h))
  }

  predicate LockedAt(h: History, now: nat) {
    LockedUntil(h).Some? && now < LockedUntil(h).value
  }

  /** The number of locks that still count at time `now`. */
  function LockCount(h: History, now: nat): nat {
    var times := LockTimes(h);
    if times != [] && now < times[|times| - 1] + CHAIN_WINDOW_MS then ChainLength(times) else 0
  }

  // ---- What these mean -----------------------------------------------------

  /** Event `i` of the history locks the account. */
  predicate LocksAt(h: History, i: nat) {
    i < |h| && Locks(h[..i + 1])
  }

  predicate ShortGap(h: History, i: nat) {
    0 < i < |h| && h[i].at - h[i - 1].at < ATTEMPT_WINDOW_MS
  }

  /** The last `k` events are failures that did not lock, with short gaps. */
  ghost predicate Counted(h: History, k: nat) {
    && k <= |h|
    && (forall i | |h| - k <= i < |h| :: h[i].Failed?)
    && (forall i {:trigger LocksAt(h, i)} | |h| - k <= i < |h| :: !LocksAt(h, i))
    && (forall i | |h| - k < i < |h| :: ShortGap(h, i))
  }

  /** The event before the last `k` is a lock, a clear, or too long ago. */
  ghost predicate Cut(h: History, k: nat)
    requires k < |h|
  {
    h[|h| - k - 1].Cleared? || LocksAt(h, |h| - k - 1) || (k > 0 && !ShortGap(h, |h| - k))
  }

  lemma PrefixFacts(h: History)
    requires h != []
    ensures forall i | 0 <= i < |h| - 1 :: Front(h)[i] == h[i]
    ensures forall i {:trigger LocksAt(h, i)} | 0 <= i < |h| - 1 :: LocksAt(Front(h), i) == LocksAt(h, i)
    ensures forall i {:trigger ShortGap(h, i)} | 0 <= i < |h| - 1 :: ShortGap(Front(h), i) == ShortGap(h, i)
  {
    forall i | 0 <= i < |h| - 1 ensures LocksAt(Front(h), i) == LocksAt(h, i) {
      assert Front(h)[..i + 1] == h[..i + 1];
    }
  }

  lemma CountedExtends(h: History, k: nat)
    requires h != [] && Counted(Front(h), k)
    requires Last(h).Failed? && !Locks(h) && (k > 0 ==> ShortGap(h, |h| - 1))
    ensures Counted(h, k + 1)
  {
    PrefixFacts(h);
    assert h[..|h|] == h;
  }

  lemma CutExtends(h: History, k: nat)
    requires h != [] && k < |Front(h)| && Cut(Front(h), k)
    ensures Cut(h, k + 1)
  {
    PrefixFacts(h);
  }

  /** The streak is the number of failures since the last lock, clear or long gap. */
  lemma {:induction false} StreakMeaning(h: History)
    ensures Counted(h, Streak(h))
    ensures Streak(h) < |h| ==> Cut(h, Streak(h))
  {
    if h != [] {
      assert h[..|h|] == h;
      var g, k := Front(h), Streak(h);
      StreakMeaning(g);
      if k == 1 {
        CountedExtends(h, 0);
        if g != [] && Streak(g) == 0 { CutExtends(h, 0); }
      } else if k > 1 {
        CountedExtends(h, k - 1);
        if k - 1 < |g| { CutExtends(h, k - 1); }
      }
    }
  }

  /** A lock is the fifth failure: the four before it are counted, and nothing longer is. */
  lemma LockIsFifth(h: History)
    requires Locks(h)
    ensures |h| >= MAX_ATTEMPTS
    ensures Streak(Front(h)) == MAX_ATTEMPTS - 1 && Counted(Front(h), MAX_ATTEMPTS - 1) && ShortGap(h, |h| - 1)
  {
    StreakMeaning(Front(h));
  }

  /** A clear forgets the streak and the lock in force, but not the chain of locks. */
  lemma ClearKeepsTheChain(h: History, at: nat)
    ensures LockTimes(h + [Cleared(at)]) == LockTimes(h)
    ensures Streak(h + [Cleared(at)]) == 0 && LockedUntil(h + [Cleared(at)]) == None
  {
    assert Front(h + [Cleared(at)]) == h;
  }

  lemma DurationGrows(m: nat, n: nat)
    requires 0 < m <= n
    ensures Duration(m) <= Duration(n)
  {
  }

  /** A lock within the window of the one before makes the chain longer by one. */
  lemma ChainGrows(times: seq<nat>, at: nat)
    requires times != [] && at - times[|times| - 1] < CHAIN_WINDOW_MS
    ensures ChainLength(times) > 0 && ChainLength(times + [at]) == ChainLength(times) + 1
    ensures Duration(ChainLength(times)) <= Duration(ChainLength(times + [at]))
  {
    assert (times + [at])[..|times|] == times;
    DurationGrows(ChainLength(times), ChainLength(times + [at]));
  }

  lemma NoLockBetween(h: History, p: nat, m: nat)
    requires p <= m < |h|
    requires forall n | p < n <= m :: !LocksAt(h, n)
    ensures LockTimes(h[..m + 1]) == LockTimes(h[..p + 1])
    decreases m
  {
    if p < m {
      assert !LocksAt(h, m);
      assert Front(h[..m + 1]) == h[..m];
      NoLockBetween(h, p, m - 1);
    }
  }

  /** How long the lock that event `i` sets is to last. */
  function LastsFor(h: History, i: nat): int
    requires LocksAt(h, i)
  {
    LockingIsTimed(h[..i + 1]);
    Duration(ChainLength(LockTimes(h[..i + 1])))
  }

  lemma LastsUntil(h: History, i: nat)
    requires LocksAt(h, i)
    ensures LockedUntil(h[..i + 1]) == Some(h[i].at + LastsFor(h, i))
  {
  }

  /**
    Of two successive locks of a history, whatever is cleared in between, the
    second one is not shorter when it comes within seven days of the first.
   */
  lemma DurationsNeverShrink(h: History, i: nat, j: nat)
    requires i < j && LocksAt(h, i) && LocksAt(h, j) && forall n | i < n < j :: !LocksAt(h, n)
    requires h[j].at - h[i].at < CHAIN_WINDOW_MS
    ensures LastsFor(h, i) <= LastsFor(h, j)
    ensures ChainLength(LockTimes(h[..j + 1])) == ChainLength(LockTimes(h[..i + 1])) + 1
  {
    NoLockBetween(h, i, j - 1);
    assert Front(h[..i + 1]) == h[..i] && Front(h[..j + 1]) == h[..j];
    ChainGrows(LockTimes(h[..i + 1]), h[j].at);
  }

  // ---- The rate bound ------------------------------------------------------

  /** Failures are only recorded while the account is not locked. */
  ghost predicate Gated(h: History) {
    forall i {:trigger Admitted(h, i)} | 0 <= i < |h| :: Admitted(h, i)
  }

  /** Event `i` is a clear, or a failure that found the account unlocked. */
  predicate Admitted(h: History, i: nat)
    requires i < |h|
  {
    h[i].Failed? ==> !LockedAt(h[..i], h[i].at)
  }

  /** Failures `i` to `j` follow each other with short gaps. */
  ghost predicate Burst(h: History, i: nat, j: nat) {
    && i <= j < |h|
    && (forall n | i <= n <= j :: h[n].Failed?)
    && (forall n | i < n <= j :: h[n].at - h[n - 1].at < ATTEMPT_WINDOW_MS)
  }

  lemma NextFailure(h: History, n: nat)
    requires 0 < n < |h| && h[n].Failed? && h[n].at - h[n - 1].at < ATTEMPT_WINDOW_MS
    ensures Streak(h[..n + 1]) == (if Streak(h[..n]) == 4 then 0 else Streak(h[..n]) + 1)
  {
    assert Front(h[..n + 1]) == h[..n];
  }

  lemma LocksEveryFifth(h: History, p: nat)
    requires Burst(h, p, p + 5) && LocksAt(h, p)
    ensures LocksAt(h, p + 5) && forall n | p < n < p + 5 :: !LocksAt(h, n)
  {
    NextFailure(h, p + 1);
    NextFailure(h, p + 2);
    NextFailure(h, p + 3);
    NextFailure(h, p + 4);
    NextFailure(h, p + 5);
  }

  /** Two locks five failures apart in one run: the second one lasts for at least the window. */
  lemma SecondLockIsLong(h: History, p: nat)
    requires Burst(h, p, p + 5) && LocksAt(h, p)
    requires 0 <= h[p + 5].at - h[p].at < CHAIN_WINDOW_MS
    ensures LockedUntil(h[..p + 6]).Some? && LockedUntil(h[..p + 6]).value >= h[p + 5].at + ATTEMPT_WINDOW_MS
  {
    LocksEveryFifth(h, p);
    NoLockBetween(h, p, p + 4);
    var before, after := h[..p + 5], h[..p + 6];
    assert Front(after) == before && Front(h[..p + 1]) == h[..p];
    var times := LockTimes(before);
    assert times[|times| - 1] == h[p].at;
    assert LockTimes(after) == times + [h[p + 5].at];
    ChainGrows(times, h[p + 5].at);
    DurationGrows(2, ChainLength(LockTimes(after)));
  }

  /** Within five failures in a row one locks. */
  lemma FirstLock(h: History, i: nat) returns (p: nat)
    requires Burst(h, i, i + 4)
    ensures i <= p <= i + 4 && LocksAt(h, p)
  {
    p := i;
    while Streak(h[..p + 1]) != 0
      invariant i <= p < |h| && (Streak(h[..p + 1]) > p - i || Streak(h[..p + 1]) == 0)
      invariant p <= i + 4
      decreases i + 4 - p
    {
      NextFailure(h, p + 1);
      p := p + 1;
    }
  }

  /** No eleven failures in a row fit into less than the window. */
  lemma RateBound(h: History, i: nat, j: nat)
    requires Ordered(h) && Gated(h) && i <= j < |h|
    requires forall n | i <= n <= j :: h[n].Failed?
    requires h[j].at - h[i].at < ATTEMPT_WINDOW_MS
    ensures j - i + 1 <= 10
  {
    if j - i >= 10 {
      assert Burst(h, i, j);
      var p := FirstLock(h, i);
      assert Burst(h, p, p + 5);
      assert Admitted(h, p + 6);
      SecondLockIsLong(h, p);
      assert false;
    }
  }

  /** The failures recorded in the half-open window that starts at `from`. */
  ghost function FailuresIn(h: History, from: nat): set<nat> {
    set i | 0 <= i < |h| && h[i].Failed? && from <= h[i].at < from + ATTEMPT_WINDOW_MS
  }

  lemma {:induction false} IntervalSize(s: set<nat>, lo: nat, hi: nat)
    requires lo <= hi && forall i | i in s :: lo <= i < hi
    ensures |s| <= hi - lo
    decreases hi - lo
  {
    if lo < hi {
      IntervalSize(s - {lo}, lo + 1, hi);
    } else {
      assert s == {};
    }
  }

  /**
    In any window of thirty minutes without a clear, at most ten failed attempts
    are recorded.
   */
  lemma AtMostTenPerWindow(h: History, from: nat)
    requires Ordered(h) && Gated(h)
    requires forall i | 0 <= i < |h| && h[i].Cleared? :: !(from <= h[i].at < from + ATTEMPT_WINDOW_MS)
    ensures |FailuresIn(h, from)| <= 10
  {
    var s := FailuresIn(h, from);
    if s != {} {
      var lo := First(h, from);
      forall i | i in s ensures lo <= i < lo + 10 {
        RateBound(h, lo, i);
      }
      IntervalSize(s, lo, lo + 10);
    }
  }

  ghost function First(h: History, from: nat): (i: nat)
    requires FailuresIn(h, from) != {}
    ensures i in FailuresIn(h, from) && forall j | j in FailuresIn(h, from) :: i <= j
  {
    var j :| j in FailuresIn(h, from);
    Least(FailuresIn(h, from), j)
  }

  ghost function Least(s: set<nat>, bound: nat): (i: nat)
    requires bound in s
    ensures i in s && forall j | j in s :: i <= j
    decreases bound
  {
    if j :| j in s && j < bound then Least(s, j) else bound
  }

  lemma GatedAppend(h: History, e: Event)
    requires Gated(h) && (e.Failed? ==> !LockedAt(h, e.at))
    ensures Gated(h + [e])
  {
    forall i: nat | i < |h + [e]| ensures Admitted(h + [e], i) {
      if i < |h| {
        assert Admitted(h, i);
        assert (h + [e])[..i] == h[..i];
      } else {
        assert (h + [e])[..i] == h;
      }
    }
  }

  /** `n` more failures at time `at`. */
  function Fail(h: History, at: nat, n: nat): History {
    if n == 0 then h else Fail(h, at, n - 1) + [Failed(at)]
  }

  lemma {:induction false} FailShape(h: History, at: nat, n: nat)
    requires Ordered(h) && (h != [] ==> Last(h).at <= at)
    ensures var f := Fail(h, at, n);
            && |f| == |h| + n && Ordered(f)
            && (forall i | 0 <= i < |f| :: f[i] == if i < |h| then h[i] else Failed(at))
  {
    if n > 0 { FailShape(h, at, n - 1); }
  }

  lemma AppendFailure(g: History, at: nat)
    requires (g != [] && at - Last(g).at < ATTEMPT_WINDOW_MS) || Streak(g) == 0
    ensures var f := g + [Failed(at)];
            && Streak(f) == (if Streak(g) == 4 then 0 else Streak(g) + 1)
            && LockTimes(f) == LockTimes(g) + (if Streak(g) == 4 then [at] else [])
            && (Streak(g) != 4 ==> LockedUntil(f) == LockedUntil(g))
  {
    assert Front(g + [Failed(at)]) == g;
  }

  /** An unlocked account with an empty streak takes four failures at once, and a fifth locks it. */
  lemma {:induction false} FourFail(h: History, at: nat, n: nat)
    requires Gated(h) && Streak(h) == 0 && !LockedAt(h, at) && n <= 4
    ensures var f := Fail(h, at, n);
            && Gated(f)
            && (n > 0 ==> f != [] && Last(f) == Failed(at))
            && Streak(f) == n && LockTimes(f) == LockTimes(h) && LockedUntil(f) == LockedUntil(h)
  {
    if n > 0 {
      FourFail(h, at, n - 1);
      var g := Fail(h, at, n - 1);
      AppendFailure(g, at);
      GatedAppend(g, Failed(at));
    }
  }

  lemma FifthLocks(h: History, at: nat)
    requires Gated(h) && Streak(h) == 0 && !LockedAt(h, at)
    ensures var f := Fail(h, at, 5); Gated(f) && Locks(f) && Last(f) == Failed(at) && LockTimes(f) == LockTimes(h) + [at]
  {
    FourFail(h, at, 4);
    var g := Fail(h, at, 4);
    AppendFailure(g, at);
    GatedAppend(g, Failed(at));
  }

  lemma {:induction false} FullInterval(s: set<nat>, n: nat)
    requires forall i: nat :: i in s <==> i < n
    ensures |s| == n
  {
    if n > 0 { FullInterval(s - {n - 1}, n - 1); } else { assert s == {}; }
  }

  lemma Volley(h: History, at: nat) returns (f: History)
    requires Ordered(h) && (h != [] ==> Last(h).at <= at)
    requires Gated(h) && Streak(h) == 0 && !LockedAt(h, at)
    ensures Ordered(f) && Gated(f) && Locks(f) && Last(f) == Failed(at) && LockTimes(f) == LockTimes(h) + [at]
    ensures |f| == |h| + 5 && forall i | 0 <= i < |f| :: f[i] == if i < |h| then h[i] else Failed(at)
  {
    f := Fail(h, at, 5);
    FailShape(h, at, 5);
    FifthLocks(h, at);
  }

  lemma FirstLockIsShort(h: History, at: nat)
    requires Locks(h) && Last(h) == Failed(at) && LockTimes(h) == [at]
    ensures !LockedAt(h, at + 900_000)
  {
    assert ChainLength(LockTimes(h)) == 1;
  }

  /** The bound is reached: five failures, and five more when the lock of 15 minutes is over. */
  lemma TenFit() returns (h: History)
    ensures Ordered(h) && Gated(h) && |FailuresIn(h, 0)| == 10
    ensures forall i | 0 <= i < |h| :: h[i].Failed?
  {
    var first := Volley([], 0);
    FirstLockIsShort(first, 0);
    h := Volley(first, 900_000);
    FullInterval(FailuresIn(h, 0), 10);
  }
}
