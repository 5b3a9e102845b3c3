/**
  What a client sees that follows `nextCursor` until it is null: on a feed that
  does not change, and on one that changes between any two fetches.
 */
module FeedWalks {
  import opened Options
  import opened FeedPagination

  // ---- A keyset predicate selects a suffix ---------------------------------

  /** The first row, from row `k` on, that the predicate accepts. */
  function StartFrom(feed: Feed, p: Position, k: nat): (n: nat)
    requires k <= |feed|
    ensures k <= n <= |feed|
    decreases |feed| - k
  {
    if k == |feed| || Below(feed[k], p) then k else StartFrom(feed, p, k + 1)
  }

  /** The number of leading rows that the predicate rejects. */
  function Start(feed: Feed, p: Position): (n: nat)
    ensures n <= |feed|
  {
    StartFrom(feed, p, 0)
  }

  lemma {:induction false} StartFromMeans(feed: Feed, p: Position, k: nat)
    requires k <= |feed|
    ensures var n := StartFrom(feed, p, k);
            (forall i | k <= i < n :: !Below(feed[i], p)) && (n < |feed| ==> Below(feed[n], p))
    decreases |feed| - k
  {
    if k < |feed| && !Below(feed[k], p) { StartFromMeans(feed, p, k + 1); }
  }

  lemma StartMeans(feed: Feed, p: Position)
    ensures var n := Start(feed, p);
            (forall i | 0 <= i < n :: !Below(feed[i], p)) && (n < |feed| ==> Below(feed[n], p))
  {
    StartFromMeans(feed, p, 0);
  }

  lemma {:induction false} WhereAll(feed: Feed, p: Position)
    requires forall i | 0 <= i < |feed| :: Below(feed[i], p)
    ensures Where(feed, Some(p)) == feed
  {
    if feed != [] { WhereAll(feed[1..], p); }
  }

  lemma {:induction false} WhereSkips(feed: Feed, p: Position, n: nat)
    requires n <= |feed| && forall i | 0 <= i < n :: !Below(feed[i], p)
    ensures Where(feed, Some(p)) == Where(feed[n..], Some(p))
    decreases n
  {
    if n > 0 {
      WhereSkips(feed[1..], p, n - 1);
      assert feed[1..][n - 1..] == feed[n..];
    } else {
      assert feed[0..] == feed;
    }
  }

  lemma WhereIsSuffix(feed: Feed, p: Position)
    requires NewestFirst(feed)
    ensures Where(feed, Some(p)) == feed[Start(feed, p)..]
  {
    var n := Start(feed, p);
    StartMeans(feed, p);
    WhereSkips(feed, p, n);
    forall i | 0 <= i < |feed[n..]| ensures Below(feed[n..][i], p) {
      if i > 0 { assert Before(feed[n], feed[n + i]); }
    }
    WhereAll(feed[n..], p);
  }

  lemma {:induction false} WhereNone(feed: Feed)
    ensures Where(feed, None) == feed
  {
    if feed != [] { WhereNone(feed[1..]); }
  }

  // ---- A page is a slice of the feed ---------------------------------------

  /** The index of the first row that a plan yields. */
  function First(feed: Feed, plan: Plan): (k: nat)
    ensures k <= |feed|
  {
    if plan.below.Some? then Start(feed, plan.below.value)
    else if plan.skip <= |feed| then plan.skip else |feed|
  }

  function Slice(feed: Feed, k: nat, n: nat): Feed
    requires k <= |feed|
  {
    if k + n <= |feed| then feed[k..k + n] else feed[k..]
  }

  function CursorAfter(feed: Feed, sort: SortOrder, k: nat, limit: nat): Cursor
    requires 0 < limit && k + limit <= |feed|
  {
    var last := feed[k + limit - 1];
    if sort == Newest then Cursor(last.id, Some(Milliseconds(last.createdAt)), None)
    else Cursor(last.id, None, Some(k + limit))
  }

  /** The page that starts at row `k`: it says that there are more exactly when rows remain. */
  function PageAt(feed: Feed, sort: SortOrder, k: nat, limit: nat): Page
    requires 0 < limit && k <= |feed|
  {
    var more := k + limit < |feed|;
    Page(Slice(feed, k, limit), if more then Some(CursorAfter(feed, sort, k, limit)) else None, more)
  }

  lemma SelectedIsSuffix(feed: Feed, plan: Plan)
    requires plan.below.Some? ==> plan.skip == 0 && NewestFirst(feed)
    ensures Drop(Where(feed, plan.below), plan.skip) == feed[First(feed, plan)..]
  {
    if plan.below.Some? { WhereIsSuffix(feed, plan.below.value); } else { WhereNone(feed); }
  }

  lemma TakeOfSuffix(feed: Feed, k: nat, n: nat)
    requires k <= |feed|
    ensures Take(feed[k..], n) == Slice(feed, k, n)
  {
  }

  /** Plans made by `applyFeedCursor` never combine a predicate with an offset. */
  lemma RowsAreSlice(feed: Feed, plan: Plan, limit: nat)
    requires plan.below.Some? ==> plan.skip == 0 && NewestFirst(feed)
    ensures Rows(feed, plan, limit) == Slice(feed, First(feed, plan), limit + 1)
  {
    SelectedIsSuffix(feed, plan);
    TakeOfSuffix(feed, First(feed, plan), limit + 1);
  }

  lemma FirstOfSlice(feed: Feed, k: nat, limit: nat)
    requires k <= |feed|
    ensures var items := Slice(feed, k, limit + 1);
            && (|items| > limit <==> k + limit < |feed|)
            && (if |items| > limit then items[..limit] else items) == Slice(feed, k, limit)
            && (|items| > limit > 0 ==> items[limit - 1] == feed[k + limit - 1])
  {
  }

  lemma FetchIsPageAt(feed: Feed, sort: SortOrder, cursor: Option<Cursor>, page: Option<int>, limit: nat)
    requires limit > 0 && (sort == Newest ==> NewestFirst(feed))
    ensures Fetch(feed, sort, cursor, page, limit)
         == PageAt(feed, sort, First(feed, PlanOf(sort, cursor, page, limit)), limit)
  {
    var plan := PlanOf(sort, cursor, page, limit);
    RowsAreSlice(feed, plan, limit);
    FirstOfSlice(feed, First(feed, plan), limit);
  }

  // ---- A walk over an unchanging feed --------------------------------------

  /** The index that the page after the one at `k` starts at. */
  function NextStart(feed: Feed, sort: SortOrder, k: nat, limit: nat): nat
    requires limit > 0 && k + limit < |feed|
  {
    if sort == Newest then Start(feed, Resume(feed[k + limit - 1])) else k + limit
  }

  lemma NextStartAdvances(feed: Feed, sort: SortOrder, k: nat, limit: nat)
    requires limit > 0 && k + limit < |feed| && (sort == Newest ==> NewestFirst(feed))
    ensures k + limit <= NextStart(feed, sort, k, limit) <= |feed|
    ensures NextStart(feed, sort, k, limit) == k + limit
       <==> sort == Newest ==> Below(feed[k + limit], Resume(feed[k + limit - 1]))
  {
    if sort == Newest {
      var last := feed[k + limit - 1];
      var s := Start(feed, Resume(last));
      StartMeans(feed, Resume(last));
      assert forall j | 0 <= j < k + limit - 1 :: Before(feed[j], last);
    }
  }

  /** The row that following a cursor resumes at. */
  lemma CursorLeadsOn(feed: Feed, sort: SortOrder, k: nat, limit: nat)
    requires limit > 0 && k + limit < |feed| && (sort == Newest ==> NewestFirst(feed))
    ensures First(feed, PlanOf(sort, Some(CursorAfter(feed, sort, k, limit)), None, limit))
         == NextStart(feed, sort, k, limit)
    ensures k + limit <= NextStart(feed, sort, k, limit) <= |feed|
  {
    NextStartAdvances(feed, sort, k, limit);
  }

  /** Fetch a page, follow its cursor, until there is none. */
  function Walk(feed: Feed, sort: SortOrder, cursor: Option<Cursor>, limit: nat): seq<Page>
    requires limit > 0 && (sort == Newest ==> NewestFirst(feed))
    decreases |feed| - First(feed, PlanOf(sort, cursor, None, limit))
  {
    var p := Fetch(feed, sort, cursor, None, limit);
    FetchIsPageAt(feed, sort, cursor, None, limit);
    if p.nextCursor.None? then [p]
    else
      CursorLeadsOn(feed, sort, First(feed, PlanOf(sort, cursor, None, limit)), limit);
      [p] + Walk(feed, sort, p.nextCursor, limit)
  }

  /** The pages of a walk, by the rows they start at. */
  function PagesFrom(feed: Feed, sort: SortOrder, k: nat, limit: nat): seq<Page>
    requires limit > 0 && (sort == Newest ==> NewestFirst(feed)) && k <= |feed|
    decreases |feed| - k
  {
    if k + limit < |feed| then
      NextStartAdvances(feed, sort, k, limit);
      [PageAt(feed, sort, k, limit)] + PagesFrom(feed, sort, NextStart(feed, sort, k, limit), limit)
    else [PageAt(feed, sort, k, limit)]
  }

  lemma {:induction false} WalkIsPagesFrom(feed: Feed, sort: SortOrder, cursor: Option<Cursor>, limit: nat)
    requires limit > 0 && (sort == Newest ==> NewestFirst(feed))
    ensures Walk(feed, sort, cursor, limit) == PagesFrom(feed, sort, First(feed, PlanOf(sort, cursor, None, limit)), limit)
    decreases |feed| - First(feed, PlanOf(sort, cursor, None, limit))
  {
    FetchIsPageAt(feed, sort, cursor, None, limit);
    var k := First(feed, PlanOf(sort, cursor, None, limit));
    if k + limit < |feed| {
      CursorLeadsOn(feed, sort, k, limit);
      WalkIsPagesFrom(feed, sort, Some(CursorAfter(feed, sort, k, limit)), limit);
    }
  }

  function Items(pages: seq<Page>): Feed {
    if pages == [] then [] else pages[0].data + Items(pages[1..])
  }

  /**
    At every page boundary from row `k` on, the next row is older than the
    millisecond of the last row, or shares its start and has a smaller id.
   */
  predicate Smooth(feed: Feed, k: nat, limit: nat)
    requires limit > 0
    decreases |feed| - k
  {
    k + limit < |feed| ==> Below(feed[k + limit], Resume(feed[k + limit - 1])) && Smooth(feed, k + limit, limit)
  }

  lemma SuffixSplits(feed: Feed, k: nat, n: nat, rest: Feed)
    requires k + n <= |feed|
    ensures feed[k..k + n] + rest == feed[k..] <==> rest == feed[k + n..]
  {
    assert feed[k..] == feed[k..k + n] + feed[k + n..];
    assert (feed[k..k + n] + rest)[n..] == rest;
    assert (feed[k..k + n] + feed[k + n..])[n..] == feed[k + n..];
  }

  lemma ItemsOfFirst(p: Page, rest: seq<Page>)
    ensures Items([p] + rest) == p.data + Items(rest)
  {
    assert ([p] + rest)[1..] == rest;
  }

  /** A page and the rows after it make up the rest of the feed exactly when those rows are the rest. */
  lemma PageCovers(feed: Feed, sort: SortOrder, k: nat, limit: nat, next: nat, items: Feed)
    requires limit > 0 && k + limit < |feed| && k + limit <= next <= |feed| && |items| <= |feed| - next
    ensures var all := PageAt(feed, sort, k, limit).data + items;
            && |all| <= |feed| - k
            && (all == feed[k..] <==> next == k + limit && items == feed[next..])
  {
    SuffixSplits(feed, k, limit, items);
  }

  lemma ItemsUnfold(feed: Feed, sort: SortOrder, k: nat, limit: nat)
    requires limit > 0 && (sort == Newest ==> NewestFirst(feed)) && k + limit < |feed|
    ensures var next := NextStart(feed, sort, k, limit);
            && k + limit <= next <= |feed|
            && Items(PagesFrom(feed, sort, k, limit))
            == PageAt(feed, sort, k, limit).data + Items(PagesFrom(feed, sort, next, limit))
  {
    NextStartAdvances(feed, sort, k, limit);
    ItemsOfFirst(PageAt(feed, sort, k, limit), PagesFrom(feed, sort, NextStart(feed, sort, k, limit), limit));
  }

  lemma {:induction false} PagesCover(feed: Feed, sort: SortOrder, k: nat, limit: nat)
    requires limit > 0 && (sort == Newest ==> NewestFirst(feed)) && k <= |feed|
    ensures |Items(PagesFrom(feed, sort, k, limit))| <= |feed| - k
    ensures Items(PagesFrom(feed, sort, k, limit)) == feed[k..] <==> sort == Newest ==> Smooth(feed, k, limit)
    decreases |feed| - k
  {
    if k + limit < |feed| {
      var next := NextStart(feed, sort, k, limit);
      ItemsUnfold(feed, sort, k, limit);
      PagesCover(feed, sort, next, limit);
      PageCovers(feed, sort, k, limit, next, Items(PagesFrom(feed, sort, next, limit)));
      NextStartAdvances(feed, sort, k, limit);
    } else {
      ItemsOfFirst(PageAt(feed, sort, k, limit), []);
    }
  }

  /**
    A walk from the first page returns exactly the feed, each row once, for the
    count orders always, and for the newest order exactly when no page boundary
    falls inside a millisecond.
   */
  lemma WalkReturnsTheFeed(feed: Feed, sort: SortOrder, limit: nat)
    requires limit > 0 && (sort == Newest ==> NewestFirst(feed))
    ensures Items(Walk(feed, sort, None, limit)) == feed <==> sort == Newest ==> Smooth(feed, 0, limit)
  {
    WalkIsPagesFrom(feed, sort, None, limit);
    PagesCover(feed, sort, 0, limit);
    assert feed[0..] == feed;
  }

  ghost predicate WholeMilliseconds(feed: Feed) {
    forall i | 0 <= i < |feed| :: feed[i].createdAt % 1000 == 0
  }

  lemma ResumesAtItself(r: Row)
    requires r.createdAt % 1000 == 0
    ensures Resume(r) == Position(r.createdAt, r.id)
  {
  }

  /** Rows stamped in whole milliseconds are never skipped, for any limit and any ties. */
  lemma {:induction false} WholeMillisecondsAreSmooth(feed: Feed, k: nat, limit: nat)
    requires limit > 0 && NewestFirst(feed) && WholeMilliseconds(feed)
    ensures Smooth(feed, k, limit)
    decreases |feed| - k
  {
    if k + limit < |feed| {
      ResumesAtItself(feed[k + limit - 1]);
      assert Before(feed[k + limit - 1], feed[k + limit]);
      WholeMillisecondsAreSmooth(feed, k + limit, limit);
    }
  }

  /** Two rows of one millisecond, pages of one row: the second row is never returned. */
  lemma SameMillisecondSkips()
    ensures var feed := [Row(2, 1_700, 0), Row(1, 1_300, 0)];
            NewestFirst(feed) && Items(Walk(feed, Newest, None, 1)) != feed
  {
    var feed := [Row(2, 1_700, 0), Row(1, 1_300, 0)];
    assert !Smooth(feed, 0, 1);
    WalkReturnsTheFeed(feed, Newest, 1);
  }

  /** The row that page number `i + 1` starts at. */
  function Steps(i: nat, limit: nat): nat {
    if i == 0 then 0 else limit + Steps(i - 1, limit)
  }

  lemma {:induction false} StepsIsProduct(i: nat, limit: nat)
    ensures Steps(i, limit) == i * limit
  {
    if i > 0 { StepsIsProduct(i - 1, limit); }
  }

  ghost predicate Regular(feed: Feed, sort: SortOrder, k: nat, limit: nat)
    requires limit > 0
  {
    sort == Newest ==> NewestFirst(feed) && Smooth(feed, k, limit)
  }

  lemma RegularStep(feed: Feed, sort: SortOrder, k: nat, limit: nat)
    requires limit > 0 && k <= |feed| && Regular(feed, sort, k, limit)
    requires |PagesFrom(feed, sort, k, limit)| > 1
    ensures k + limit < |feed| && Regular(feed, sort, k + limit, limit)
    ensures PagesFrom(feed, sort, k, limit)[1..] == PagesFrom(feed, sort, k + limit, limit)
  {
    NextStartAdvances(feed, sort, k, limit);
  }

  lemma FirstPage(feed: Feed, sort: SortOrder, k: nat, limit: nat)
    requires limit > 0 && k <= |feed| && (sort == Newest ==> NewestFirst(feed))
    ensures PagesFrom(feed, sort, k, limit) != []
    ensures PagesFrom(feed, sort, k, limit)[0] == PageAt(feed, sort, k, limit)
  {
  }

  ghost predicate EveryLimit(pages: seq<Page>, feed: Feed, sort: SortOrder, k: nat, limit: nat)
    requires limit > 0
  {
    pages != [] ==>
      k <= |feed| && pages[0] == PageAt(feed, sort, k, limit) && EveryLimit(pages[1..], feed, sort, k + limit, limit)
  }

  lemma {:induction false} RegularIsEveryLimit(pages: seq<Page>, feed: Feed, sort: SortOrder, k: nat, limit: nat)
    requires limit > 0 && k <= |feed| && Regular(feed, sort, k, limit)
    requires pages == PagesFrom(feed, sort, k, limit)
    ensures EveryLimit(pages, feed, sort, k, limit)
    decreases |pages|
  {
    FirstPage(feed, sort, k, limit);
    if |pages| > 1 {
      RegularStep(feed, sort, k, limit);
      RegularIsEveryLimit(pages[1..], feed, sort, k + limit, limit);
    }
  }

  lemma {:induction false} PagesAreNumbered(pages: seq<Page>, feed: Feed, sort: SortOrder, limit: nat,
                                            k: nat, i: nat, n: nat)
    requires limit > 0 && EveryLimit(pages, feed, sort, k, limit)
    requires i < |pages| && n == k + Steps(i, limit)
    ensures n <= |feed| && pages[i] == PageAt(feed, sort, n, limit)
    decreases i
  {
    if i > 0 { PagesAreNumbered(pages[1..], feed, sort, limit, k + limit, i - 1, n); }
  }

  /** The p-th page of a walk that skips nothing is the page with number p. */
  lemma WalkPagesAreNumbered(feed: Feed, sort: SortOrder, limit: nat, i: nat)
    requires limit > 0 && Regular(feed, sort, 0, limit)
    requires i < |Walk(feed, sort, None, limit)|
    ensures Walk(feed, sort, None, limit)[i] == Fetch(feed, sort, None, Some(i + 1), limit)
  {
    WalkIsPagesFrom(feed, sort, None, limit);
    RegularIsEveryLimit(PagesFrom(feed, sort, 0, limit), feed, sort, 0, limit);
    PagesAreNumbered(PagesFrom(feed, sort, 0, limit), feed, sort, limit, 0, i, Steps(i, limit));
    NumberedPage(feed, sort, limit, i);
  }

  lemma NumberedPage(feed: Feed, sort: SortOrder, limit: nat, i: nat)
    requires limit > 0 && (sort == Newest ==> NewestFirst(feed)) && Steps(i, limit) <= |feed|
    ensures Fetch(feed, sort, None, Some(i + 1), limit) == PageAt(feed, sort, Steps(i, limit), limit)
  {
    StepsIsProduct(i, limit);
    FetchIsPageAt(feed, sort, None, Some(i + 1), limit);
  }
}
