/**
  A newest-order walk over a feed that changes between fetches: rows may be
  inserted, hidden and deleted, and scheduled publishing may raise `created_at`.
 */
module FeedChanges {
  import opened Options
  import opened FeedPagination
  import opened FeedWalks

  ghost predicate Snapshots(snaps: seq<Feed>) {
    forall i | 0 <= i < |snaps| :: NewestFirst(snaps[i]) && UniqueIds(snaps[i])
  }

  ghost predicate UniqueIds(feed: Feed) {
    forall i, j | 0 <= i < |feed| && 0 <= j < |feed| && feed[i].id == feed[j].id :: i == j
  }

  /** From one fetch to a later one, a row's `created_at` never goes down. */
  ghost predicate MovesUpOnly(snaps: seq<Feed>) {
    forall i, j, r, q | 0 <= i < j < |snaps| && r in snaps[i] && q in snaps[j] && r.id == q.id ::
      r.createdAt <= q.createdAt
  }

  /** Each fetch sees the next snapshot. */
  function WalkChanging(snaps: seq<Feed>, cursor: Option<Cursor>, limit: nat): seq<Page>
    requires limit > 0
    decreases |snaps|
  {
    if snaps == [] then []
    else
      var p := Fetch(snaps[0], Newest, cursor, None, limit);
      [p] + (if p.nextCursor.None? then [] else WalkChanging(snaps[1..], p.nextCursor, limit))
  }

  function Bound(c: Cursor): Position
    requires c.createdAtMs.Some?
  {
    Position(c.createdAtMs.value * 1000, c.id)
  }

  ghost predicate Keyset(cursor: Option<Cursor>) {
    cursor.Some? ==> cursor.value.createdAtMs.Some?
  }

  ghost predicate Within(r: Row, cursor: Option<Cursor>) {
    cursor.Some? && cursor.value.createdAtMs.Some? ==> Below(r, Bound(cursor.value))
  }

  function LastOf(p: Page): Row
    requires p.data != []
  {
    p.data[|p.data| - 1]
  }

  /** `a` is sorted before `b`, or is `b`. */
  predicate NotAfter(a: Row, b: Row) {
    a == b || Before(a, b)
  }

  // ---- One fetch -----------------------------------------------------------

  /** What one page of a newest-order walk holds. */
  ghost predicate PageOf(p: Page, feed: Feed, cursor: Option<Cursor>) {
    && NewestFirst(p.data)
    && (forall r | r in p.data :: r in feed && Within(r, cursor))
    && (p.nextCursor.None? ==> forall r | r in feed && Within(r, cursor) :: r in p.data)
    && (p.nextCursor.Some? ==>
          && p.data != []
          && p.nextCursor.value.createdAtMs.Some?
          && Bound(p.nextCursor.value) == Resume(LastOf(p))
          && (forall r | r in p.data :: NotAfter(r, LastOf(p)))
          && (forall r | r in feed && Within(r, cursor) && r !in p.data :: Before(LastOf(p), r)))
  }

  lemma SliceFacts(feed: Feed, k: nat, limit: nat)
    requires limit > 0 && k <= |feed| && NewestFirst(feed)
    ensures var data := Slice(feed, k, limit);
            && NewestFirst(data)
            && (forall j | 0 <= j < |data| :: data[j] == feed[k + j])
            && (forall j {:trigger feed[j]} | k <= j < |feed| && feed[j] !in data :: k + limit <= j)
  {
    var data := Slice(feed, k, limit);
    forall j | k <= j < |feed| && j < k + limit ensures feed[j] in data {
      assert data[j - k] == feed[j];
    }
  }

  lemma StartSplits(feed: Feed, cursor: Option<Cursor>, limit: nat)
    requires NewestFirst(feed) && Keyset(cursor)
    ensures var k := First(feed, PlanOf(Newest, cursor, None, limit));
            forall j | 0 <= j < |feed| :: Within(feed[j], cursor) <==> k <= j
  {
    if cursor.Some? {
      var k := Start(feed, Bound(cursor.value));
      StartMeans(feed, Bound(cursor.value));
      forall j | k < j < |feed| ensures Below(feed[j], Bound(cursor.value)) { assert Before(feed[k], feed[j]); }
    }
  }

  lemma PageAtIsPageOf(feed: Feed, cursor: Option<Cursor>, k: nat, limit: nat)
    requires limit > 0 && NewestFirst(feed) && k <= |feed|
    requires forall j | 0 <= j < |feed| :: Within(feed[j], cursor) <==> k <= j
    ensures PageOf(PageAt(feed, Newest, k, limit), feed, cursor)
  {
    SliceFacts(feed, k, limit);
    var data := Slice(feed, k, limit);
    forall r | r in data ensures r in feed && Within(r, cursor) {
      var j :| 0 <= j < |data| && data[j] == r;
      assert r == feed[k + j];
    }
  }

  lemma FetchIsPageOf(feed: Feed, cursor: Option<Cursor>, limit: nat)
    requires limit > 0 && NewestFirst(feed) && Keyset(cursor)
    ensures PageOf(Fetch(feed, Newest, cursor, None, limit), feed, cursor)
  {
    FetchIsPageAt(feed, Newest, cursor, None, limit);
    StartSplits(feed, cursor, limit);
    PageAtIsPageOf(feed, cursor, First(feed, PlanOf(Newest, cursor, None, limit)), limit);
  }

  /** The pages of a walk: each one is a page of its snapshot, fetched with the cursor before it. */
  ghost predicate Chain(pages: seq<Page>, snaps: seq<Feed>, cursor: Option<Cursor>)
    decreases |pages|
  {
    && |pages| <= |snaps|
    && (pages != [] ==>
          && PageOf(pages[0], snaps[0], cursor)
          && (|pages| > 1 ==> pages[0].nextCursor.Some?)
          && Chain(pages[1..], snaps[1..], pages[0].nextCursor))
  }

  lemma {:induction false} WalkIsChain(snaps: seq<Feed>, cursor: Option<Cursor>, limit: nat)
    requires limit > 0 && Snapshots(snaps) && Keyset(cursor)
    ensures Chain(WalkChanging(snaps, cursor, limit), snaps, cursor)
    decreases |snaps|
  {
    if snaps != [] {
      FetchIsPageOf(snaps[0], cursor, limit);
      var p := Fetch(snaps[0], Newest, cursor, None, limit);
      var rest := if p.nextCursor.None? then [] else WalkChanging(snaps[1..], p.nextCursor, limit);
      if p.nextCursor.Some? { WalkIsChain(snaps[1..], p.nextCursor, limit); }
      assert WalkChanging(snaps, cursor, limit) == [p] + rest && ([p] + rest)[1..] == rest;
    }
  }

  /** Nothing on a later page is at or above the point where this page's cursor resumes. */
  lemma BelowResume(r: Row, last: Row, p: Position)
    requires Below(last, p) && Below(r, Resume(last))
    ensures Below(r, p)
  {
  }

  lemma {:induction false} LaterPagesAreBelow(pages: seq<Page>, snaps: seq<Feed>, cursor: Option<Cursor>, i: nat, r: Row)
    requires Chain(pages, snaps, cursor) && Keyset(cursor)
    requires i < |pages| && r in pages[i].data
    ensures Within(r, cursor) && r in snaps[i]
    decreases |pages|
  {
    if i > 0 {
      LaterPagesAreBelow(pages[1..], snaps[1..], pages[0].nextCursor, i - 1, r);
      if cursor.Some? {
        assert Within(LastOf(pages[0]), cursor);
        BelowResume(r, LastOf(pages[0]), Bound(cursor.value));
      }
    }
  }

  // ---- No row twice --------------------------------------------------------

  lemma {:induction false} NeverTwiceFrom(pages: seq<Page>, snaps: seq<Feed>, cursor: Option<Cursor>,
                                          i: nat, j: nat, r: Row, q: Row)
    requires Chain(pages, snaps, cursor) && Keyset(cursor)
    requires i < j < |pages| && r in pages[i].data && q in pages[j].data
    requires r.id == q.id ==> r.createdAt <= q.createdAt
    ensures r.id != q.id
    decreases |pages|
  {
    if i > 0 {
      NeverTwiceFrom(pages[1..], snaps[1..], pages[0].nextCursor, i - 1, j - 1, r, q);
    } else {
      LaterPagesAreBelow(pages[1..], snaps[1..], pages[0].nextCursor, j - 1, q);
      assert NotAfter(r, LastOf(pages[0])) && Below(q, Resume(LastOf(pages[0])));
    }
  }

  lemma {:induction false} EachPageIsPageOf(pages: seq<Page>, snaps: seq<Feed>, cursor: Option<Cursor>, i: nat)
    requires Chain(pages, snaps, cursor) && i < |pages|
    ensures NewestFirst(pages[i].data) && forall r | r in pages[i].data :: r in snaps[i]
    decreases |pages|
  {
    if i > 0 { EachPageIsPageOf(pages[1..], snaps[1..], pages[0].nextCursor, i - 1); }
  }

  /** However the feed changes, as long as rows only move up, no row is returned twice. */
  lemma NeverTwice(snaps: seq<Feed>, limit: nat, i: nat, j: nat, a: nat, b: nat)
    requires limit > 0 && Snapshots(snaps) && MovesUpOnly(snaps)
    requires var pages := WalkChanging(snaps, None, limit);
             && i < |pages| && j < |pages| && a < |pages[i].data| && b < |pages[j].data|
             && pages[i].data[a].id == pages[j].data[b].id
    ensures i == j && a == b
  {
    var pages := WalkChanging(snaps, None, limit);
    WalkIsChain(snaps, None, limit);
    var r, q := pages[i].data[a], pages[j].data[b];
    EachPageIsPageOf(pages, snaps, None, i);
    EachPageIsPageOf(pages, snaps, None, j);
    assert r in snaps[i] && q in snaps[j];
    if i < j {
      NeverTwiceFrom(pages, snaps, None, i, j, r, q);
    } else if j < i {
      NeverTwiceFrom(pages, snaps, None, j, i, q, r);
    } else {
      assert r == q by {
        var m :| 0 <= m < |snaps[i]| && snaps[i][m] == r;
        var n :| 0 <= n < |snaps[i]| && snaps[i][n] == q;
      }
    }
  }

  // ---- No row missed -------------------------------------------------------

  ghost predicate Returned(pages: seq<Page>, r: Row) {
    exists i :: 0 <= i < |pages| && r in pages[i].data
  }

  /** Page `i` ends in the millisecond of `r`, and its cursor resumes below `r`. */
  ghost predicate SkippedAfter(pages: seq<Page>, i: nat, r: Row) {
    && i < |pages|
    && pages[i].data != []
    && pages[i].nextCursor.Some?
    && Before(LastOf(pages[i]), r)
    && !Below(r, Resume(LastOf(pages[i])))
  }

  /** The walk ran until its cursor was null. */
  ghost predicate Finished(pages: seq<Page>) {
    pages != [] && pages[|pages| - 1].nextCursor.None?
  }

  lemma {:induction false} ReturnedIffNotSkipped(pages: seq<Page>, snaps: seq<Feed>, cursor: Option<Cursor>, r: Row)
    requires Chain(pages, snaps, cursor) && Keyset(cursor) && Finished(pages)
    requires Within(r, cursor) && forall i | 0 <= i < |snaps| :: r in snaps[i]
    ensures Returned(pages, r) <==> !exists i :: SkippedAfter(pages, i, r)
    decreases |pages|
  {
    var p, rest := pages[0], pages[1..];
    assert pages == [p] + rest;
    if r in p.data {
      assert Returned(pages, r) by { assert r in pages[0].data; }
      NotSkippedLater(pages, snaps, cursor, r);
    } else {
      assert p.nextCursor.Some?;
      if !Below(r, Resume(LastOf(p))) {
        assert SkippedAfter(pages, 0, r);
        forall i | 0 <= i < |pages| ensures r !in pages[i].data {
          if i > 0 && r in pages[i].data { LaterPagesAreBelow(rest, snaps[1..], p.nextCursor, i - 1, r); }
        }
      } else {
        ReturnedIffNotSkipped(rest, snaps[1..], p.nextCursor, r);
        ShiftWalk(p, rest, r);
      }
    }
  }

  lemma ShiftWalk(p: Page, rest: seq<Page>, r: Row)
    requires r !in p.data && !SkippedAfter([p] + rest, 0, r)
    ensures Returned([p] + rest, r) <==> Returned(rest, r)
    ensures (exists i :: SkippedAfter([p] + rest, i, r)) <==> (exists i :: SkippedAfter(rest, i, r))
  {
    var pages := [p] + rest;
    forall i: nat ensures SkippedAfter(pages, i + 1, r) == SkippedAfter(rest, i, r) {
      if i < |rest| { assert pages[i + 1] == rest[i]; }
    }
    if i: nat :| SkippedAfter(rest, i, r) { assert SkippedAfter(pages, i + 1, r); }
    if i: nat :| SkippedAfter(pages, i, r) { assert i > 0 && SkippedAfter(rest, i - 1, r); }
    if i :| 0 <= i < |rest| && r in rest[i].data { assert r in pages[i + 1].data; }
    if i :| 0 <= i < |pages| && r in pages[i].data { assert i > 0 && r in rest[i - 1].data; }
  }

  /** Once returned, a row is not above the end of any later page. */
  lemma NotSkippedLater(pages: seq<Page>, snaps: seq<Feed>, cursor: Option<Cursor>, r: Row)
    requires Chain(pages, snaps, cursor) && Keyset(cursor)
    requires pages != [] && r in pages[0].data
    ensures !exists i :: SkippedAfter(pages, i, r)
  {
    if i: nat :| SkippedAfter(pages, i, r) {
      if i > 0 {
        LaterPagesAreBelow(pages[1..], snaps[1..], pages[0].nextCursor, i - 1, LastOf(pages[i]));
      }
      assert false;
    }
  }

  /**
    A row that stays visible with an unchanged key is returned, unless some page
    ends inside the row's own millisecond just before it.
   */
  lemma StableRowsAreReturned(snaps: seq<Feed>, limit: nat, r: Row)
    requires limit > 0 && Snapshots(snaps) && Finished(WalkChanging(snaps, None, limit))
    requires forall i | 0 <= i < |snaps| :: r in snaps[i]
    ensures var pages := WalkChanging(snaps, None, limit);
            Returned(pages, r) <==> !exists i :: SkippedAfter(pages, i, r)
  {
    WalkIsChain(snaps, None, limit);
    ReturnedIffNotSkipped(WalkChanging(snaps, None, limit), snaps, None, r);
  }

  /** With whole-millisecond timestamps every such row is returned, whatever the limit and the ties. */
  lemma StableRowsAreReturnedInWholeMilliseconds(snaps: seq<Feed>, limit: nat, r: Row)
    requires limit > 0 && Snapshots(snaps) && Finished(WalkChanging(snaps, None, limit))
    requires forall i | 0 <= i < |snaps| :: r in snaps[i] && WholeMilliseconds(snaps[i])
    ensures Returned(WalkChanging(snaps, None, limit), r)
  {
    var pages := WalkChanging(snaps, None, limit);
    WalkIsChain(snaps, None, limit);
    ReturnedIffNotSkipped(pages, snaps, None, r);
    forall i: nat ensures !SkippedAfter(pages, i, r) {
      if i < |pages| && pages[i].data != [] {
        EachPageIsPageOf(pages, snaps, None, i);
        var last := LastOf(pages[i]);
        assert last in pages[i].data;
        var m :| 0 <= m < |snaps[i]| && snaps[i][m] == last;
        ResumesAtItself(last);
      }
    }
  }

  /** No other row that is ever visible stands before `r` in its own millisecond. */
  ghost predicate FirstOfItsMillisecond(snaps: seq<Feed>, r: Row) {
    forall i, q | 0 <= i < |snaps| && q in snaps[i] && Milliseconds(q.createdAt) == Milliseconds(r.createdAt) ::
      !Before(q, r)
  }

  /** A cursor that passes over a later row was made in that row's millisecond. */
  lemma SkippedInMillisecond(last: Row, r: Row)
    requires Before(last, r) && !Below(r, Resume(last))
    ensures Milliseconds(last.createdAt) == Milliseconds(r.createdAt)
  {
  }

  lemma FirstIsNotSkipped(pages: seq<Page>, snaps: seq<Feed>, i: nat, r: Row)
    requires Chain(pages, snaps, None) && FirstOfItsMillisecond(snaps, r)
    ensures !SkippedAfter(pages, i, r)
  {
    if SkippedAfter(pages, i, r) {
      EachPageIsPageOf(pages, snaps, None, i);
      var last := LastOf(pages[i]);
      assert last in pages[i].data;
      SkippedInMillisecond(last, r);
      assert false;
    }
  }

  /** A row that is always the first of its millisecond is returned, whatever the limit and the pages. */
  lemma FirstOfItsMillisecondIsReturned(snaps: seq<Feed>, limit: nat, r: Row)
    requires limit > 0 && Snapshots(snaps) && Finished(WalkChanging(snaps, None, limit))
    requires (forall i | 0 <= i < |snaps| :: r in snaps[i]) && FirstOfItsMillisecond(snaps, r)
    ensures Returned(WalkChanging(snaps, None, limit), r)
  {
    var pages := WalkChanging(snaps, None, limit);
    WalkIsChain(snaps, None, limit);
    ReturnedIffNotSkipped(pages, snaps, None, r);
    forall i: nat ensures !SkippedAfter(pages, i, r) { FirstIsNotSkipped(pages, snaps, i, r); }
  }
}
