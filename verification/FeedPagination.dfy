/**
  Feed pagination: keyset cursors for the newest order, offset cursors for the
  count orders, and page numbers as the fallback.

  A snapshot of the feed is the sequence of its visible rows in the order of the
  query.  The database keeps `created_at` in microseconds, but a cursor carries
  it as a JavaScript date, in whole milliseconds.  Times here are microseconds.
 */
module FeedPagination {
  import opened Options

  datatype Row = Row(id: nat, createdAt: nat, score: nat)

  datatype SortOrder = Newest | Trending | MostDiscussed

  /** A decoded cursor: an id, and whichever of the other fields it carries. */
  datatype Cursor = Cursor(id: nat, createdAtMs: Option<nat>, offset: Option<int>)

  type Feed = seq<Row>

  // ---- Orders and predicates -----------------------------------------------

  /** `created_at DESC, id DESC`. */
  predicate Before(a: Row, b: Row) {
    a.createdAt > b.createdAt || (a.createdAt == b.createdAt && a.id > b.id)
  }

  ghost predicate NewestFirst(feed: Feed) {
    forall i, j | 0 <= i < j < |feed| :: Before(feed[i], feed[j])
  }

  datatype Position = Position(createdAt: nat, id: nat)

  /** The row-value comparison `(created_at, id) < (:createdAt, :id)`. */
  predicate Below(r: Row, p: Position) {
    r.createdAt < p.createdAt || (r.createdAt == p.createdAt && r.id < p.id)
  }

  function Milliseconds(us: nat): nat {
    us / 1000
  }

  /** Where a keyset cursor made from a row resumes: at the start of the row's millisecond. */
  function Resume(last: Row): Position {
    Position(Milliseconds(last.createdAt) * 1000, last.id)
  }

  function Where(feed: Feed, below: Option<Position>): Feed {
    if feed == [] then []
    else
      (if below.None? || Below(feed[0], below.value) then [feed[0]] else []) + Where(feed[1..], below)
  }

  // ---- The query builder and `applyFeedCursor` -----------------------------

  datatype Plan = Plan(below: Option<Position>, skip: nat)

  function PlanOf(sort: SortOrder, cursor: Option<Cursor>, page: Option<int>, limit: nat): Plan {
    if sort == Newest && cursor.Some? && cursor.value.createdAtMs.Some? then
      Plan(Some(Position(cursor.value.createdAtMs.value * 1000, cursor.value.id)), 0)
    else if sort != Newest && cursor.Some? && cursor.value.offset.Some? && cursor.value.offset.value >= 0 then
      Plan(None, cursor.value.offset.value)
    else if page.Some? && page.value > 1 then Plan(None, (page.value - 1) * limit)
    else Plan(None, 0)
  }

  function Drop(rows: Feed, n: nat): Feed {
    if n <= |rows| then rows[n..] else []
  }

  function Take(rows: Feed, n: nat): Feed {
    if |rows| <= n then rows else rows[..n]
  }

  function Rows(feed: Feed, plan: Plan, limit: nat): Feed {
    Take(Drop(Where(feed, plan.below), plan.skip), limit + 1)
  }

  class FeedQuery {
    const feed: Feed
    var below: Option<Position>
    var skipped: nat

    constructor (feed: Feed)
      ensures this.feed == feed && below == None && skipped == 0
    {
      this.feed, below, skipped := feed, None, 0;
    }

    method AndWhere(p: Position)
      modifies this`below
      ensures below == Some(p)
    {
      below := Some(p);
    }

    method Skip(n: nat)
      modifies this`skipped
      ensures skipped == n
    {
      skipped := n;
    }

    /** `take(limit + 1).getMany()`, row by row. */
    method GetMany(limit: nat) returns (items: Feed)
      ensures items == Rows(feed, Plan(below, skipped), limit)
    {
      var matching: Feed := [];
      var i := |feed|;
      while i > 0
        invariant 0 <= i <= |feed| && matching == Where(feed[i..], below)
      {
        i := i - 1;
        assert feed[i..][1..] == feed[i + 1..];
        if below.None? || Below(feed[i], below.value) { matching := [feed[i]] + matching; }
      }
      assert feed[0..] == feed;
      items := if skipped <= |matching| then matching[skipped..] else [];
      if |items| > limit + 1 { items := items[..limit + 1]; }
    }
  }

  method ApplyFeedCursor(qb: FeedQuery, sort: SortOrder, cursor: Option<Cursor>, page: Option<int>, limit: nat)
    returns (offset: nat)
    requires qb.below == None && qb.skipped == 0
    modifies qb
    ensures Plan(qb.below, qb.skipped) == PlanOf(sort, cursor, page, limit)
    ensures offset == qb.skipped
  {
    if sort == Newest && cursor.Some? && cursor.value.createdAtMs.Some? {
      qb.AndWhere(Position(cursor.value.createdAtMs.value * 1000, cursor.value.id));
      return 0;
    }
    offset :=
      if sort != Newest && cursor.Some? && cursor.value.offset.Some? && cursor.value.offset.value >= 0
      then cursor.value.offset.value
      else if page.Some? && page.value > 1 then (page.value - 1) * limit else 0;
    if offset > 0 { qb.Skip(offset); }
  }

  // ---- One page ------------------------------------------------------------

  datatype Page = Page(data: Feed, nextCursor: Option<Cursor>, hasMore: bool)

  function NextCursor(items: Feed, limit: nat, sort: SortOrder, offset: nat): Option<Cursor>
    requires limit > 0
  {
    if |items| <= limit then None
    else
      var last := items[limit - 1];
      if sort == Newest then Some(Cursor(last.id, Some(Milliseconds(last.createdAt)), None))
      else Some(Cursor(last.id, None, Some(offset + limit)))
  }

  function Fetch(feed: Feed, sort: SortOrder, cursor: Option<Cursor>, page: Option<int>, limit: nat): Page
    requires limit > 0
  {
    var plan := PlanOf(sort, cursor, page, limit);
    var items := Rows(feed, plan, limit);
    Page(if |items| > limit then items[..limit] else items,
         NextCursor(items, limit, sort, plan.skip),
         |items| > limit)
  }

  method LoadFeed(feed: Feed, sort: SortOrder, cursor: Option<Cursor>, page: Option<int>, limit: nat)
    returns (r: Page)
    requires limit > 0
    ensures r == Fetch(feed, sort, cursor, page, limit)
  {
    var qb := new FeedQuery(feed);
    var offset := ApplyFeedCursor(qb, sort, cursor, page, limit);
    var items := qb.GetMany(limit);
    var hasMore := |items| > limit;
    var data := if hasMore then items[..limit] else items;
    r := Page(data, NextCursor(items, limit, sort, offset), hasMore);
  }
}
