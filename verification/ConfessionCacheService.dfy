/**
  The confession service's reads and writes around the cache, and the scheduler
  that publishes due confessions, written as the imperative code they are; and
  the administrators' writes to the same rows.
 */
module ConfessionCacheService {
  import opened Options
  import opened RedisCache
  import opened ConfessionCache

  datatype Outcome<T> = Done(value: T) | NotFound | BadRequest

  /** The table, which every service writes. */
  class ConfessionRepo {
    var rows: map<Id, Row>

    constructor ()
      ensures rows == map[]
    {
      rows := map[];
    }
  }

  class ConfessionService {
    const repo: ConfessionRepo
    const cacheService: CacheService<CacheValue>
    const client: Redis<CacheValue>

    constructor (table: ConfessionRepo, cache: CacheService<CacheValue>)
      requires cache.cacheManager.client.Valid() && cache.cacheManager.client.data == map[]
      ensures Valid() && repo == table && cacheService == cache
    {
      repo, cacheService, client := table, cache, cache.cacheManager.client;
    }

    ghost predicate Connected()
      reads repo, client
    {
      cacheService.cacheManager.client == client && client.Valid()
    }

    /** Between calls the cache is coherent with the table. */
    ghost predicate Valid()
      reads repo, client
    {
      Connected() && Coherent(St())
    }

    ghost function St(): State
      reads repo, client
    {
      State(repo.rows, client.data, client.now)
    }

    // ---- Eviction ----------------------------------------------------------

    method InvalidateConfessionCache()
      requires Connected()
      modifies client`data
      ensures Connected() && client.data == Without(old(client.data), PREFIX + LIST_PREFIX)
    {
      cacheService.DelPattern(LIST_PREFIX);
    }

    method InvalidateConfessionEntry(id: Id)
      requires Connected()
      modifies client`data
      ensures Connected() && client.data == EvictEntry(old(client.data), id)
    {
      cacheService.Del(SingleKey(id));
      InvalidateConfessionCache();
    }

    // ---- Writes ------------------------------------------------------------

    method Create(id: Id, message: string, gender: Option<string>, verdict: Moderation)
      requires Valid() && id !in repo.rows
      modifies repo`rows, client`data
      ensures Valid() && St() == Step(old(St()), Event.Create(id, message, gender, verdict))
    {
      StepKeeps(St(), Event.Create(id, message, gender, verdict));
      repo.rows := repo.rows[id := Row(message, gender, client.now, verdict, verdict == Rejected, false, Published)];
      InvalidateConfessionCache();
    }

    /** `edited` is the sanitized message, if one is given; a message of nothing but markup is refused. */
    method Update(id: Id, edited: Option<string>, gender: Option<string>, verdict: Moderation) returns (r: Outcome<Row>)
      requires Valid()
      modifies repo`rows, client`data
      ensures Valid() && St() == Step(old(St()), Event.Update(id, edited, gender, verdict))
      ensures r.NotFound? <==> id !in old(repo.rows) || old(repo.rows)[id].isDeleted
      ensures r.Done? ==> id in repo.rows && r.value == repo.rows[id]
    {
      StepKeeps(St(), Event.Update(id, edited, gender, verdict));
      if id !in repo.rows || repo.rows[id].isDeleted { return NotFound; }
      var g := if gender.Some? then gender else repo.rows[id].gender;
      if edited.Some? {
        if edited.value == "" { return BadRequest; }
        repo.rows := repo.rows[id := repo.rows[id].(
          message := edited.value, gender := g, moderation := verdict, isHidden := verdict == Rejected)];
      } else {
        repo.rows := repo.rows[id := repo.rows[id].(gender := g)];
      }
      InvalidateConfessionEntry(id);
      r := Done(repo.rows[id]);
    }

    method Remove(id: Id) returns (r: Outcome<()>)
      requires Valid()
      modifies repo`rows, client`data
      ensures Valid() && St() == Step(old(St()), Event.Remove(id))
      ensures r == if id in old(repo.rows) && !old(repo.rows)[id].isDeleted then Done(()) else NotFound
    {
      StepKeeps(St(), Event.Remove(id));
      if id !in repo.rows || repo.rows[id].isDeleted { return NotFound; }
      repo.rows := repo.rows[id := repo.rows[id].(isDeleted := true)];
      InvalidateConfessionEntry(id);
      r := Done(());
    }

    method Restore(id: Id) returns (r: Outcome<()>)
      requires Valid()
      modifies repo`rows, client`data
      ensures Valid() && St() == Step(old(St()), Event.Restore(id))
      ensures r == if id in old(repo.rows) && old(repo.rows)[id].isDeleted then Done(()) else NotFound
    {
      StepKeeps(St(), Event.Restore(id));
      if id !in repo.rows || !repo.rows[id].isDeleted { return NotFound; }
      repo.rows := repo.rows[id := repo.rows[id].(isDeleted := false)];
      InvalidateConfessionEntry(id);
      r := Done(());
    }

    method DeleteConfession(id: Id) returns (r: Outcome<()>)
      requires Valid()
      modifies repo`rows, client`data
      ensures Valid() && St() == Step(old(St()), Event.DeleteConfession(id))
      ensures r == if id in old(repo.rows) then Done(()) else NotFound
    {
      StepKeeps(St(), Event.DeleteConfession(id));
      if id !in repo.rows { return NotFound; }
      repo.rows := repo.rows[id := repo.rows[id].(isDeleted := true)];
      InvalidateConfessionEntry(id);
      r := Done(());
    }

    method RestoreConfession(id: Id) returns (r: Outcome<()>)
      requires Valid()
      modifies repo`rows, client`data
      ensures Valid() && St() == Step(old(St()), Event.RestoreConfession(id))
      ensures r == if id in old(repo.rows) then Done(()) else NotFound
    {
      StepKeeps(St(), Event.RestoreConfession(id));
      if id !in repo.rows { return NotFound; }
      repo.rows := repo.rows[id := repo.rows[id].(isDeleted := false)];
      InvalidateConfessionEntry(id);
      r := Done(());
    }

    method UpdateModerationStatus(id: Id, status: Moderation) returns (r: Outcome<Row>)
      requires Valid()
      modifies repo`rows, client`data
      ensures Valid() && St() == Step(old(St()), Moderate(id, status))
      ensures r == if id in old(repo.rows) then Done(repo.rows[id]) else NotFound
    {
      StepKeeps(St(), Moderate(id, status));
      if id !in repo.rows { return NotFound; }
      repo.rows := repo.rows[id := repo.rows[id].(moderation := status, isHidden := status == Rejected)];
      InvalidateConfessionEntry(id);
      r := Done(repo.rows[id]);
    }

    // ---- Reads -------------------------------------------------------------

    /** `counted` tells whether this reader's view is counted, which reads the row a second time. */
    method GetConfessionByIdWithViewCount(id: Id, counted: bool) returns (r: Outcome<View>)
      requires Valid()
      modifies client`data, client`slots
      ensures Valid() && St() == Step(old(St()), ReadOne(id))
      ensures r == match Answer(old(St()), id) case Some(view) => Done(view) case None => NotFound
      ensures r.Done? ==> id in repo.rows && r.value == ViewOf(id, repo.rows[id])
      ensures r.NotFound? ==> id !in repo.rows || !Visible(repo.rows[id])
    {
      assert SingleOk(St(), id);
      ReadOneKeeps(St(), id);
      var cached := cacheService.Get(SingleKey(id));
      if cached.Some? {
        return Done(cached.value.view);
      }
      if id !in repo.rows || !Visible(repo.rows[id]) { return NotFound; }
      if counted {
        var updated := repo.rows[id];
        cacheService.Set(SingleKey(id), Single(ViewOf(id, updated)), SINGLE_TTL);
        return Done(ViewOf(id, updated));
      }
      cacheService.Set(SingleKey(id), Single(ViewOf(id, repo.rows[id])), SINGLE_TTL);
      r := Done(ViewOf(id, repo.rows[id]));
    }

    method MapToSlim(ids: seq<Id>) returns (items: seq<SlimItem>)
      requires forall id | id in ids :: id in repo.rows
      ensures items == Slim(repo.rows, ids)
    {
      items := [];
      var i := |ids|;
      while i > 0
        invariant 0 <= i <= |ids| && items == Slim(repo.rows, ids[i..])
      {
        i := i - 1;
        assert ids[i..][1..] == ids[i + 1..];
        items := [SlimOf(ids[i], repo.rows[ids[i]])] + items;
      }
      assert ids[0..] == ids;
    }

    /** A feed page; `selected` is what the query gives. */
    method LoadConfessionsFeed(parts: seq<string>, selected: seq<Id>) returns (page: seq<SlimItem>)
      requires Valid() && parts != [] && FeedSelects(St(), selected)
      modifies client`data, client`slots
      ensures Valid() && St() == Step(old(St()), ReadFeed(parts, selected))
      ensures page == Served(old(St()), parts, selected)
      ensures forall item | item in page :: ItemOk(St(), item)
    {
      page := LoadPage(parts, selected);
    }

    method LoadConfessionsByTag(parts: seq<string>, selected: seq<Id>) returns (page: seq<SlimItem>)
      requires Valid() && parts != [] && TagSelects(St(), selected)
      modifies client`data, client`slots
      ensures Valid() && St() == Step(old(St()), ReadTag(["tag"] + parts, selected))
      ensures page == Served(old(St()), ["tag"] + parts, selected)
      ensures forall item | item in page :: ItemOk(St(), item)
    {
      page := LoadPage(["tag"] + parts, selected);
    }

    method LoadPage(parts: seq<string>, selected: seq<Id>) returns (page: seq<SlimItem>)
      requires Valid() && parts != [] && TagSelects(St(), selected)
      modifies client`data, client`slots
      ensures Valid() && St() == ReadListStep(old(St()), parts, selected)
      ensures page == Served(old(St()), parts, selected)
      ensures forall item | item in page :: ItemOk(St(), item)
    {
      ListKeysHavePrefix(parts);
      ReadListKeeps(St(), parts, selected);
      var cacheKey := ListKey(parts);
      var cached := cacheService.Get(cacheKey);
      if cached.Some? {
        assert PageOk(St(), PREFIX + cacheKey);
        return cached.value.items;
      }
      page := MapToSlim(selected);
      SlimItemsAreOk(St(), selected);
      ghost var before := St();
      cacheService.Set(cacheKey, Page(page), LIST_TTL);
      forall item | item in page ensures ItemOk(St(), item) { assert ItemOk(before, item); }
    }

    // ---- The scheduler -----------------------------------------------------

    /** The transaction: every due row becomes published, and is created anew. */
    method PublishDueRows() returns (publishedIds: seq<Id>)
      requires Connected()
      modifies repo`rows
      ensures forall id :: id in publishedIds <==> id in DueIds(old(St()))
      ensures repo.rows == map id | id in old(repo.rows) ::
                if id in DueIds(old(St())) then PublishedRow(old(repo.rows)[id], client.now) else old(repo.rows)[id]
    {
      ghost var before, due := repo.rows, DueIds(St());
      var now := client.now;
      var todo := set id | id in repo.rows && IsDue(repo.rows[id], now);
      publishedIds := [];
      while todo != {}
        invariant todo <= due && (forall id :: id in publishedIds <==> id in due && id !in todo)
        invariant repo.rows.Keys == before.Keys
        invariant forall id | id in repo.rows ::
          repo.rows[id] == if id in due && id !in todo then PublishedRow(before[id], now) else before[id]
        decreases |todo|
      {
        var id :| id in todo;
        repo.rows := repo.rows[id := repo.rows[id].(status := Published, createdAt := now)];
        publishedIds := publishedIds + [id];
        todo := todo - {id};
      }
    }

    method PublishScheduledConfessions()
      requires Valid()
      modifies repo`rows, client`data
      ensures Valid() && St() == Step(old(St()), PublishDue)
    {
      StepKeeps(St(), PublishDue);
      ghost var s := St();
      var publishedIds := PublishDueRows();
      InvalidatePublishedCache(publishedIds, DueIds(s));
      if DueIds(s) == {} { assert repo.rows == s.rows; }
    }

    method InvalidatePublishedCache(publishedIds: seq<Id>, ghost due: set<Id>)
      requires Connected() && forall id :: id in publishedIds <==> id in due
      modifies client`data
      ensures Connected()
      ensures client.data
           == if due == {} then old(client.data) else Without(old(client.data) - SingleKeys(due), PREFIX + LIST_PREFIX)
    {
      if publishedIds == [] { return; }
      assert publishedIds[0] in due;
      ghost var before := client.data;
      for i := 0 to |publishedIds|
        invariant Connected() && client.data == before - (set id | id in publishedIds[..i] :: PREFIX + SingleKey(id))
      {
        cacheService.Del(SingleKey(publishedIds[i]));
        assert publishedIds[..i + 1] == publishedIds[..i] + [publishedIds[i]];
      }
      assert publishedIds[..|publishedIds|] == publishedIds;
      assert (set id | id in publishedIds :: PREFIX + SingleKey(id)) == SingleKeys(due);
      cacheService.DelPattern(LIST_PREFIX);
    }
  }

  /** The administrators' writes: they know of no cache. */
  class AdminService {
    const repo: ConfessionRepo

    constructor (table: ConfessionRepo)
      ensures repo == table
    {
      repo := table;
    }

    method DeleteConfession(id: Id) returns (r: Outcome<()>)
      modifies repo
      ensures forall data, now :: State(repo.rows, data, now) == Step(State(old(repo.rows), data, now), AdminDelete(id))
      ensures r == if id in old(repo.rows) then Done(()) else NotFound
    {
      if id !in repo.rows { return NotFound; }
      repo.rows := repo.rows[id := repo.rows[id].(isDeleted := true)];
      r := Done(());
    }

    method HideConfession(id: Id) returns (r: Outcome<Row>)
      modifies repo
      ensures forall data, now :: State(repo.rows, data, now) == Step(State(old(repo.rows), data, now), AdminHide(id))
      ensures r == if id in old(repo.rows) then Done(repo.rows[id]) else NotFound
    {
      if id !in repo.rows { return NotFound; }
      var saved := repo.rows[id].(isHidden := true);
      repo.rows := repo.rows[id := saved];
      r := Done(saved);
    }

    method UnhideConfession(id: Id) returns (r: Outcome<Row>)
      modifies repo
      ensures forall data, now :: State(repo.rows, data, now) == Step(State(old(repo.rows), data, now), AdminUnhide(id))
      ensures r == if id in old(repo.rows) then Done(repo.rows[id]) else NotFound
    {
      if id !in repo.rows { return NotFound; }
      var saved := repo.rows[id].(isHidden := false);
      repo.rows := repo.rows[id := saved];
      r := Done(saved);
    }
  }
}
