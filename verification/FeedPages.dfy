/**
  What one page of the feed holds, row by row, whichever of cursor and page number
  the request gives.
 */
module FeedPages {
  import opened Options
  import opened FeedPagination
  import opened FeedWalks

  /** The row comes after a cursor's timestamp, or at it with a smaller id. */
  predicate Remains(r: Row, c: Cursor)
    requires c.createdAtMs.Some?
  {
    r.createdAt < c.createdAtMs.value * 1000 || (r.createdAt == c.createdAtMs.value * 1000 && r.id < c.id)
  }

  /** A page of the rows from `k` on: at most `limit` of them, in order, and a cursor at the last when more follow. */
  ghost predicate IsPage(p: Page, feed: Feed, sort: SortOrder, k: nat, limit: nat)
    requires k <= |feed| && limit > 0
  {
    && |p.data| == (if |feed| - k < limit then |feed| - k else limit)
    && (forall i | 0 <= i < |p.data| :: p.data[i] == feed[k + i])
    && (p.hasMore <==> |feed| > k + limit)
    && (!p.hasMore ==> p.nextCursor == None)
    && (p.hasMore ==>
          var last := feed[k + limit - 1];
          p.nextCursor == Some(if sort == Newest then Cursor(last.id, Some(last.createdAt / 1000), None)
                               else Cursor(last.id, None, Some(k + limit))))
  }

  /** The page starts at the first row that remains after the cursor. */
  ghost predicate StartsAfter(feed: Feed, c: Cursor, k: nat)
    requires c.createdAtMs.Some?
  {
    && k <= |feed|
    && (forall i | 0 <= i < k :: !Remains(feed[i], c))
    && (forall i | k <= i < |feed| :: Remains(feed[i], c))
  }

  lemma FetchIsPage(feed: Feed, sort: SortOrder, cursor: Option<Cursor>, page: Option<int>, limit: nat, k: nat)
    requires limit > 0 && (sort == Newest ==> NewestFirst(feed)) && k == First(feed, PlanOf(sort, cursor, page, limit))
    ensures k <= |feed| && IsPage(Fetch(feed, sort, cursor, page, limit), feed, sort, k, limit)
  {
    FetchIsPageAt(feed, sort, cursor, page, limit);
    PageAtIsPage(feed, sort, k, limit);
  }

  lemma PageAtIsPage(feed: Feed, sort: SortOrder, k: nat, limit: nat)
    requires limit > 0 && k <= |feed|
    ensures IsPage(PageAt(feed, sort, k, limit), feed, sort, k, limit)
  {
  }

  /** In the newest order a cursor with a timestamp wins over any page number. */
  lemma TimestampCursorWins(feed: Feed, c: Cursor, page: Option<int>, limit: nat) returns (k: nat)
    requires limit > 0 && NewestFirst(feed) && c.createdAtMs.Some?
    ensures StartsAfter(feed, c, k) && IsPage(Fetch(feed, Newest, Some(c), page, limit), feed, Newest, k, limit)
  {
    var p := Position(c.createdAtMs.value * 1000, c.id);
    k := Start(feed, p);
    StartMeans(feed, p);
    FetchIsPage(feed, Newest, Some(c), page, limit, k);
    forall i | 0 <= i < |feed| ensures Remains(feed[i], c) <==> Below(feed[i], p) {}
  }

  /** In the count orders an offset in the cursor does, if it is not negative. */
  lemma OffsetCursorWins(feed: Feed, sort: SortOrder, c: Cursor, page: Option<int>, limit: nat)
    requires limit > 0 && sort != Newest && c.offset.Some? && c.offset.value >= 0
    ensures var k: nat := if c.offset.value <= |feed| then c.offset.value else |feed|;
            var p := Fetch(feed, sort, Some(c), page, limit);
            && p.hasMore == (|feed| > c.offset.value + limit)
            && (c.offset.value <= |feed| ==> IsPage(p, feed, sort, k, limit))
            && (c.offset.value > |feed| ==> p.data == [] && p.nextCursor == None)
  {
    FetchIsPage(feed, sort, Some(c), page, limit, First(feed, PlanOf(sort, Some(c), page, limit)));
  }

  /** Without such a cursor the page number counts, from one; anything else is the first page. */
  lemma PageNumberCounts(feed: Feed, sort: SortOrder, cursor: Option<Cursor>, page: Option<int>, limit: nat)
    requires limit > 0 && (sort == Newest ==> NewestFirst(feed))
    requires cursor.None? || (if sort == Newest then cursor.value.createdAtMs.None?
                              else cursor.value.offset.None? || cursor.value.offset.value < 0)
    ensures var from: nat := if page.Some? && page.value > 1 then (page.value - 1) * limit else 0;
            var p := Fetch(feed, sort, cursor, page, limit);
            && (from <= |feed| ==> IsPage(p, feed, sort, from, limit))
            && (from > |feed| ==> p.data == [] && !p.hasMore && p.nextCursor == None)
  {
    FetchIsPage(feed, sort, cursor, page, limit, First(feed, PlanOf(sort, cursor, page, limit)));
  }
}
