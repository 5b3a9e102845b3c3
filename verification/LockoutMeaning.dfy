/**
  What locks an account, for how long, and what is reported of it, in plain
  numbers over the history of one email.
 */
module LockoutMeaning {
  import opened Options
  import opened LockoutHistory

  // ---- What locks ----------------------------------------------------------

  /**
    Event `i` locks exactly when it is the fifth of five failures less than thirty
    minutes apart, none of which locked before it.
   */
  lemma LocksIff(h: History, i: nat)
    requires i < |h|
    ensures LocksAt(h, i) <==>
              && i >= 4
              && (forall n | i - 4 <= n <= i :: h[n].Failed?)
              && (forall n | i - 4 < n <= i :: h[n].at - h[n - 1].at < 1_800_000)
              && (forall n {:trigger LocksAt(h, n)} | i - 4 <= n < i :: !LocksAt(h, n))
  {
    var g := h[..i];
    assert Front(h[..i + 1]) == g;
    SamePrefix(h, i);
    if LocksAt(h, i) {
      LockIsFifth(h[..i + 1]);
      FourCounted(h, i);
    }
    if FiveFail(h, i) && forall n {:trigger LocksAt(h, n)} | i - 4 <= n < i :: !LocksAt(h, n) { FourMakeAStreak(h, i); }
  }

  lemma SamePrefix(h: History, i: nat)
    requires i < |h|
    ensures forall n: nat {:trigger LocksAt(h, n)} | n < i :: LocksAt(h[..i], n) == LocksAt(h, n)
  {
    forall n: nat | n < i ensures LocksAt(h[..i], n) == LocksAt(h, n) { assert h[..i][..n + 1] == h[..n + 1]; }
  }

  ghost predicate FiveFail(h: History, i: nat) {
    && 4 <= i < |h|
    && (forall n | i - 4 <= n <= i :: h[n].Failed?)
    && (forall n | i - 4 < n <= i :: h[n].at - h[n - 1].at < 1_800_000)
  }

  lemma FourCounted(h: History, i: nat)
    requires 4 <= i < |h| && Counted(h[..i], 4) && ShortGap(h[..i + 1], i) && h[i].Failed?
    ensures FiveFail(h, i) && forall n {:trigger LocksAt(h, n)} | i - 4 <= n < i :: !LocksAt(h, n)
  {
    var g := h[..i];
    SamePrefix(h, i);
    forall n | i - 4 < n < i ensures h[n].at - h[n - 1].at < 1_800_000 { assert ShortGap(g, n); }
    forall n | i - 4 <= n < i ensures !LocksAt(h, n) { assert !LocksAt(g, n); }
  }

  lemma NotCutAfter(h: History, i: nat, k: nat)
    requires FiveFail(h, i) && k < 4
    requires forall n {:trigger LocksAt(h, n)} | i - 4 <= n < i :: !LocksAt(h, n)
    ensures !Cut(h[..i], k)
  {
    SamePrefix(h, i);
    assert !LocksAt(h, i - k - 1);
    if k > 0 { assert ShortGap(h[..i], i - k); }
  }

  /** Four failures that count leave no place for the streak to be cut short. */
  lemma FourMakeAStreak(h: History, i: nat)
    requires FiveFail(h, i)
    requires forall n {:trigger LocksAt(h, n)} | i - 4 <= n < i :: !LocksAt(h, n)
    ensures Streak(h[..i]) == 4
  {
    StreakMeaning(h[..i]);
    if Streak(h[..i]) < 4 { NotCutAfter(h, i, Streak(h[..i])); }
  }

  // ---- For how long --------------------------------------------------------

  /** Event `j` is the next lock after `i`, and comes within seven days. */
  ghost predicate NextInChain(h: History, i: nat, j: nat) {
    && i < j < |h| && LocksAt(h, i) && LocksAt(h, j)
    && (forall n {:trigger LocksAt(h, n)} | i < n < j :: !LocksAt(h, n))
    && h[j].at - h[i].at < 604_800_000
  }

  /** The locks up to `i` that follow each other within seven days. */
  ghost predicate IsChain(h: History, locks: seq<nat>, i: nat) {
    && locks != [] && locks[|locks| - 1] == i && LocksAt(h, i)
    && (forall m | 0 <= m < |locks| - 1 :: NextInChain(h, locks[m], locks[m + 1]))
    && (forall p {:trigger NextInChain(h, p, locks[0])} :: !NextInChain(h, p, locks[0]))
  }

  /** How long the lock lasts that is the `k`-th of its chain, in milliseconds. */
  function LockMs(k: nat): nat
    requires k > 0
  {
    match k
    case 1 => 900_000
    case 2 => 1_800_000
    case 3 => 3_600_000
    case _ => 86_400_000
  }

  lemma LastLock(h: History, i: nat) returns (p: Option<nat>)
    requires i <= |h|
    ensures p.None? ==> LockTimes(h[..i]) == [] && forall n: nat {:trigger LocksAt(h, n)} | n < i :: !LocksAt(h, n)
    ensures p.Some? ==>
              && p.value < i && LocksAt(h, p.value)
              && (forall n {:trigger LocksAt(h, n)} | p.value < n < i :: !LocksAt(h, n))
              && LockTimes(h[..i]) == LockTimes(h[..p.value + 1]) != []
    decreases i
  {
    if i == 0 { return None; }
    assert Front(h[..i]) == h[..i - 1];
    if LocksAt(h, i - 1) {
      assert h[..i - 1 + 1] == h[..i];
      return Some(i - 1);
    }
    assert h[..i - 1 + 1] == h[..i];
    p := LastLock(h, i - 1);
  }

  lemma LockTimesAt(h: History, i: nat)
    requires LocksAt(h, i)
    ensures LockTimes(h[..i + 1]) == LockTimes(h[..i]) + [h[i].at]
  {
    assert Front(h[..i + 1]) == h[..i];
  }

  lemma {:induction false} ChainIsCounted(h: History, locks: seq<nat>, i: nat)
    requires IsChain(h, locks, i)
    ensures ChainLength(LockTimes(h[..i + 1])) == |locks|
    decreases |locks|
  {
    LockTimesAt(h, i);
    var before := LockTimes(h[..i]);
    assert (before + [h[i].at])[..|before|] == before;
    var p := LastLock(h, i);
    if |locks| == 1 {
      if p.Some? {
        assert !NextInChain(h, p.value, i);
        LockTimesAt(h, p.value);
      }
    } else {
      var j := locks[|locks| - 2];
      assert NextInChain(h, j, locks[|locks| - 2 + 1]);
      assert p == Some(j);
      LockTimesAt(h, j);
      ChainIsCounted(h, locks[..|locks| - 1], j);
    }
  }

  /** The first, second, third and every later lock of a chain last for 15, 30 and 60 minutes and for a day. */
  lemma LockLasts(h: History, locks: seq<nat>, i: nat)
    requires IsChain(h, locks, i)
    ensures LockedUntil(h[..i + 1]) == Some(h[i].at + LockMs(|locks|))
    ensures |locks| == 1 ==> LockedUntil(h[..i + 1]) == Some(h[i].at + 900_000)
    ensures |locks| == 2 ==> LockedUntil(h[..i + 1]) == Some(h[i].at + 1_800_000)
    ensures |locks| == 3 ==> LockedUntil(h[..i + 1]) == Some(h[i].at + 3_600_000)
    ensures |locks| >= 4 ==> LockedUntil(h[..i + 1]) == Some(h[i].at + 86_400_000)
  {
    ChainIsCounted(h, locks, i);
    LastsUntil(h, i);
  }

  lemma NextIsLast(h: History, q: nat, i: nat, p: Option<nat>)
    requires NextInChain(h, q, i)
    requires p.None? ==> forall n: nat {:trigger LocksAt(h, n)} | n < i :: !LocksAt(h, n)
    requires p.Some? ==>
               && p.value < i && LocksAt(h, p.value)
               && forall n {:trigger LocksAt(h, n)} | p.value < n < i :: !LocksAt(h, n)
    ensures p == Some(q)
  {
  }

  /** Every lock ends a chain. */
  lemma {:induction false} ChainOf(h: History, i: nat) returns (locks: seq<nat>)
    requires LocksAt(h, i)
    ensures IsChain(h, locks, i)
    decreases i
  {
    var p := LastLock(h, i);
    if p.Some? && NextInChain(h, p.value, i) {
      var rest := ChainOf(h, p.value);
      locks := rest + [i];
      forall m | 0 <= m < |locks| - 1 ensures NextInChain(h, locks[m], locks[m + 1]) {
        if m < |rest| - 1 { assert NextInChain(h, rest[m], rest[m + 1]); }
      }
    } else {
      locks := [i];
      forall q {:trigger NextInChain(h, q, locks[0])} ensures !NextInChain(h, q, locks[0]) {
        if NextInChain(h, q, i) { NextIsLast(h, q, i, p); }
      }
    }
  }

  // ---- What is reported ----------------------------------------------------

  /** The last lock, with nothing lifted since. */
  ghost predicate LastLockHolds(h: History, i: nat) {
    LocksAt(h, i) && forall n {:trigger h[n]} | i < n < |h| :: h[n].Failed? && !LocksAt(h, n)
  }

  lemma NoLockAfter(h: History, i: nat, j: nat)
    requires LastLockHolds(h, i) && i < j < |h|
    ensures !LocksAt(h, j)
  {
    assert h[j].Failed?;
  }

  lemma OneLastLock(h: History, i: nat, j: nat)
    requires LastLockHolds(h, i) && LastLockHolds(h, j)
    ensures i == j
  {
    if i < j { NoLockAfter(h, i, j); }
    if j < i { NoLockAfter(h, j, i); }
  }

  lemma {:induction false} UntilOfLastLock(h: History, i: nat)
    requires LastLockHolds(h, i)
    ensures LockedUntil(h) == LockedUntil(h[..i + 1])
    decreases |h|
  {
    if i == |h| - 1 {
      assert h[..i + 1] == h;
    } else {
      var g := Front(h);
      assert h[|h| - 1].Failed?;
      assert h[..|h| - 1 + 1] == h;
      SamePrefix(h, |h| - 1);
      forall n | i < n < |g| ensures g[n].Failed? && !LocksAt(g, n) { assert h[n].Failed?; }
      assert LocksAt(g, i);
      UntilOfLastLock(g, i);
      assert g[..i + 1] == h[..i + 1];
    }
  }

  lemma {:induction false} NoLockHolds(h: History)
    requires forall i: nat :: !LastLockHolds(h, i)
    ensures LockedUntil(h) == None
    decreases |h|
  {
    if h != [] && Last(h).Failed? {
      assert h[..|h| - 1 + 1] == h;
      assert !LastLockHolds(h, |h| - 1);
      var g := Front(h);
      SamePrefix(h, |h| - 1);
      forall i: nat ensures !LastLockHolds(g, i) {
        if LastLockHolds(g, i) {
          forall n | i < n < |h| ensures h[n].Failed? && !LocksAt(h, n) {
            if n < |g| { assert g[n].Failed?; }
          }
          assert LastLockHolds(h, i);
        }
      }
      NoLockHolds(g);
    }
  }

  /** The account is locked at `now` exactly when the last lock, not lifted since, is not over. */
  lemma LockedIff(h: History, now: nat)
    ensures LockedAt(h, now) <==>
              exists i: nat, locks: seq<nat> {:trigger IsChain(h, locks, i)} ::
                LastLockHolds(h, i) && IsChain(h, locks, i) && now < h[i].at + LockMs(|locks|)
  {
    if i: nat :| LastLockHolds(h, i) {
      UntilOfLastLock(h, i);
      var chain := ChainOf(h, i);
      LockLasts(h, chain, i);
      forall j: nat, locks: seq<nat> | LastLockHolds(h, j) && IsChain(h, locks, j)
        ensures j == i && |locks| == |chain|
      {
        OneLastLock(h, i, j);
        ChainIsCounted(h, locks, j);
        ChainIsCounted(h, chain, i);
      }
    } else {
      NoLockHolds(h);
    }
  }

  /** The lock count is the length of the last lock's chain for seven days, and zero then. */
  lemma LockCountMeans(h: History, now: nat, i: nat, locks: seq<nat>)
    requires IsChain(h, locks, i) && forall n {:trigger LocksAt(h, n)} | i < n < |h| :: !LocksAt(h, n)
    ensures LockCount(h, now) == if now < h[i].at + 604_800_000 then |locks| else 0
  {
    NoLockBetween(h, i, |h| - 1);
    assert h[..|h| - 1 + 1] == h;
    LockTimesAt(h, i);
    ChainIsCounted(h, locks, i);
  }

  lemma NeverLocked(h: History, now: nat)
    requires forall n: nat :: !LocksAt(h, n)
    ensures LockCount(h, now) == 0
  {
    var p := LastLock(h, |h|);
    assert h[..|h|] == h;
  }
}
