/**
  What each write makes of a confession's row and of the cache, field by field, and
  for how long what is read is kept.
 */
module ConfessionWrites {
  import opened Options
  import opened RedisCache
  import opened ConfessionCache

  // ---- What is left alone --------------------------------------------------

  ghost predicate OnlyRow(s: State, t: State, id: Id) {
    && id in t.rows && t.rows.Keys == s.rows.Keys + {id}
    && forall other | other in s.rows && other != id :: t.rows[other] == s.rows[other]
  }

  /** Every listing is gone, and of the rest the entries of these confessions. */
  ghost predicate Evicted(s: State, t: State, ids: set<Id>) {
    && t.now == s.now
    && (forall key :: key in t.data <==>
          && key in s.data && !StartsWith(key, PREFIX + "confessions:")
          && forall id | id in ids :: key != PREFIX + ("confession:" + id))
    && (forall key | key in t.data :: t.data[key] == s.data[key])
  }

  predicate SameText(r: Row, q: Row) {
    q.message == r.message && q.gender == r.gender && q.createdAt == r.createdAt
  }

  predicate SameState(r: Row, q: Row) {
    && q.moderation == r.moderation && q.isHidden == r.isHidden && q.isDeleted == r.isDeleted && q.status == r.status
  }

  // ---- Writes of the service -----------------------------------------------

  /** A new confession is public at once, unless the verdict rejects it. */
  lemma CreateDoes(s: State, id: Id, message: string, gender: Option<string>, verdict: Moderation)
    requires id !in s.rows
    ensures var t := Step(s, Create(id, message, gender, verdict));
            && OnlyRow(s, t, id) && Evicted(s, t, {})
            && var r := t.rows[id];
               && r.message == message && r.gender == gender && r.createdAt == s.now && r.moderation == verdict
               && (r.isHidden <==> verdict == Rejected) && !r.isDeleted && r.status == Published
  {
  }

  /** An edited message gets a new verdict, and is hidden exactly when that rejects it. */
  lemma UpdateDoes(s: State, id: Id, edited: Option<string>, gender: Option<string>, verdict: Moderation)
    ensures var t := Step(s, Update(id, edited, gender, verdict));
            if id in s.rows && !s.rows[id].isDeleted && edited != Some("") then
              && OnlyRow(s, t, id) && Evicted(s, t, {id})
              && var r, q := s.rows[id], t.rows[id];
                 && q.createdAt == r.createdAt && q.isDeleted == r.isDeleted && q.status == r.status
                 && q.gender == (if gender.Some? then gender else r.gender)
                 && (if edited.Some? then
                       q.message == edited.value && q.moderation == verdict && (q.isHidden <==> verdict == Rejected)
                     else q.message == r.message && q.moderation == r.moderation && q.isHidden == r.isHidden)
            else t == s
  {
    if id in s.rows { EntryEvicted(s, id); }
  }

  lemma EntryEvicted(s: State, id: Id)
    ensures forall r :: Evicted(s, Write(s, id, r), {id})
  {
    assert SingleKey(id) == "confession:" + id;
  }

  /** A row that changed in nothing but being deleted. */
  ghost predicate Marked(s: State, t: State, id: Id, deleted: bool) {
    && id in s.rows && OnlyRow(s, t, id)
    && SameText(s.rows[id], t.rows[id])
    && t.rows[id].moderation == s.rows[id].moderation && t.rows[id].isHidden == s.rows[id].isHidden
    && t.rows[id].status == s.rows[id].status
    && t.rows[id].isDeleted == deleted
  }

  lemma RemoveDoes(s: State, id: Id)
    ensures var t := Step(s, Remove(id));
            if id in s.rows && !s.rows[id].isDeleted then Marked(s, t, id, true) && Evicted(s, t, {id}) else t == s
    ensures var t := Step(s, Restore(id));
            if id in s.rows && s.rows[id].isDeleted then Marked(s, t, id, false) && Evicted(s, t, {id}) else t == s
    ensures var t := Step(s, DeleteConfession(id));
            if id in s.rows then Marked(s, t, id, true) && Evicted(s, t, {id}) else t == s
    ensures var t := Step(s, RestoreConfession(id));
            if id in s.rows then Marked(s, t, id, false) && Evicted(s, t, {id}) else t == s
  {
    EntryEvicted(s, id);
  }

  /** A verdict hides exactly what it rejects, and shows again what it does not. */
  lemma ModerateDoes(s: State, id: Id, verdict: Moderation)
    ensures var t := Step(s, Moderate(id, verdict));
            if id in s.rows then
              && OnlyRow(s, t, id) && Evicted(s, t, {id}) && SameText(s.rows[id], t.rows[id])
              && t.rows[id].moderation == verdict && (t.rows[id].isHidden <==> verdict == Rejected)
              && t.rows[id].isDeleted == s.rows[id].isDeleted && t.rows[id].status == s.rows[id].status
            else t == s
  {
    EntryEvicted(s, id);
  }

  // ---- Scheduling ----------------------------------------------------------

  /** Scheduling touches nothing but the status, and no cached value. */
  lemma ScheduleDoes(s: State, id: Id, at: nat)
    ensures var t := Step(s, Schedule(id, at));
            if id in s.rows && at > s.now then
              && OnlyRow(s, t, id) && t.data == s.data && t.now == s.now
              && t.rows[id] == s.rows[id].(status := Scheduled(at))
            else t == s
    ensures var t := Step(s, CancelSchedule(id));
            if id in s.rows then
              && OnlyRow(s, t, id) && t.data == s.data && t.now == s.now
              && t.rows[id] == s.rows[id].(status := Draft)
            else t == s
  {
  }

  predicate TimeHasCome(r: Row, now: nat) {
    match r.status
    case Scheduled(at) => at <= now
    case _ => false
  }

  /** What is scheduled for now or before is published, as of now, and nothing else changes. */
  lemma PublishDoes(s: State)
    ensures var t := Step(s, PublishDue);
            && t.rows.Keys == s.rows.Keys
            && (forall id | id in s.rows ::
                  var r, q := s.rows[id], t.rows[id];
                  if TimeHasCome(r, s.now) then q == r.(status := Published, createdAt := s.now) else q == r)
            && (if exists id :: id in s.rows && TimeHasCome(s.rows[id], s.now) then
                  Evicted(s, t, set id | id in s.rows && TimeHasCome(s.rows[id], s.now))
                else t == s)
  {
    var due := DueIds(s);
    assert due == set id | id in s.rows && TimeHasCome(s.rows[id], s.now);
    if id :| id in s.rows && TimeHasCome(s.rows[id], s.now) { assert id in due; } else { assert due == {}; }
    forall key | key in s.data
      ensures key in SingleKeys(due) <==> exists id :: id in due && key == PREFIX + ("confession:" + id)
    {
      assert forall id :: SingleKey(id) == "confession:" + id;
    }
  }

  // ---- Writes of administrators --------------------------------------------

  lemma AdminWritesDo(s: State, id: Id)
    ensures var t := Step(s, AdminDelete(id));
            if id in s.rows then Marked(s, t, id, true) && t.data == s.data && t.now == s.now else t == s
    ensures var t := Step(s, AdminHide(id));
            if id in s.rows then OnlyRow(s, t, id) && t.rows[id] == s.rows[id].(isHidden := true) && t.data == s.data else t == s
    ensures var t := Step(s, AdminUnhide(id));
            if id in s.rows then OnlyRow(s, t, id) && t.rows[id] == s.rows[id].(isHidden := false) && t.data == s.data else t == s
  {
  }

  // ---- Reads ---------------------------------------------------------------

  /** What a cached or fresh view says of its row. */
  predicate Tells(v: View, id: Id, r: Row) {
    && v.id == id && v.message == r.message && v.gender == r.gender && v.createdAt == r.createdAt
    && v.moderation == r.moderation
  }

  /** A confession is found exactly when it is neither deleted nor hidden. */
  lemma DirectTells(rows: map<Id, Row>, id: Id)
    ensures Direct(rows, id).Some? <==> id in rows && !rows[id].isDeleted && !rows[id].isHidden
    ensures Direct(rows, id).Some? ==> Tells(Direct(rows, id).value, id, rows[id])
  {
  }

  /** After any run from an empty cache an answer tells what the row says now. */
  lemma AnswersTell(s: State, trace: seq<Event>, id: Id)
    requires s.data == map[]
    ensures var t := Run(s, trace); Answer(t, id).Some? ==> id in t.rows && Tells(Answer(t, id).value, id, t.rows[id])
  {
    StaleReadIff(s, trace, id);
  }

  /** So does every item of a cached page; none carries a warning, because no flagged row is listed. */
  lemma PagesTell(s: State, trace: seq<Event>, parts: seq<string>, item: SlimItem)
    requires s.data == map[] && parts != []
    requires var t := Run(s, trace);
             PREFIX + ListKey(parts) in t.data && t.data[PREFIX + ListKey(parts)].value.Page?
             && item in t.data[PREFIX + ListKey(parts)].value.items
    ensures var t := Run(s, trace);
            && item.id in t.rows
            && var r := t.rows[item.id];
               && item.message == r.message && item.gender == r.gender && item.createdAt == r.createdAt
               && !item.contentWarning && (r.moderation == Approved || r.moderation == Pending)
  {
    CachedPagesAreCurrent(s, trace, parts, item);
  }

  /** What the feed lists, and what a tag page lists. */
  lemma ListedIff(r: Row, now: nat)
    ensures TagListed(r) <==> !r.isDeleted && !r.isHidden && (r.moderation == Approved || r.moderation == Pending)
    ensures FeedListed(r, now) <==> TagListed(r) && (r.status == Published || TimeHasCome(r, now))
  {
  }

  /** A page shows what the query selected, one for one and in its order. */
  lemma {:induction false} PageShowsSelection(rows: map<Id, Row>, ids: seq<Id>, i: nat)
    requires (forall id | id in ids :: id in rows) && i < |ids|
    ensures |Slim(rows, ids)| == |ids|
    ensures var item, r := Slim(rows, ids)[i], rows[ids[i]];
            && item.id == ids[i] && item.message == r.message && item.gender == r.gender
            && item.createdAt == r.createdAt && (item.contentWarning <==> r.moderation == Flagged)
    decreases |ids|
  {
    if i > 0 { PageShowsSelection(rows, ids[1..], i - 1); } else { SlimLength(rows, ids[1..]); }
  }

  lemma {:induction false} SlimLength(rows: map<Id, Row>, ids: seq<Id>)
    requires forall id | id in ids :: id in rows
    ensures |Slim(rows, ids)| == |ids|
    decreases |ids|
  {
    if ids != [] { SlimLength(rows, ids[1..]); }
  }

  /** A view that is read is kept for half an hour. */
  lemma ViewsAreKept(s: State, id: Id, later: nat)
    requires id in s.rows && Visible(s.rows[id]) && Lookup(s.data, PREFIX + SingleKey(id), s.now).None?
    ensures var t := Step(s, ReadOne(id));
            && t.rows == s.rows
            && Lookup(t.data, PREFIX + SingleKey(id), later)
               == if later < s.now + 1_800_000 then Some(Single(ViewOf(id, s.rows[id]))) else None
    ensures forall key | key != PREFIX + SingleKey(id) ::
              Lookup(Step(s, ReadOne(id)).data, key, later) == Lookup(s.data, key, later)
  {
  }

  /** A page that is read is kept for five minutes, under its own key. */
  lemma PagesAreKept(s: State, parts: seq<string>, ids: seq<Id>, later: nat)
    requires parts != [] && FeedSelects(s, ids) && Lookup(s.data, PREFIX + ListKey(parts), s.now).None?
    ensures var t := Step(s, ReadFeed(parts, ids));
            && t.rows == s.rows && t == Step(s, ReadTag(parts, ids))
            && Lookup(t.data, PREFIX + ListKey(parts), later)
               == if later < s.now + 300_000 then Some(Page(Slim(s.rows, ids))) else None
    ensures forall key | key != PREFIX + ListKey(parts) ::
              Lookup(Step(s, ReadFeed(parts, ids)).data, key, later) == Lookup(s.data, key, later)
  {
    assert TagSelects(s, ids);
  }

  /** An anchored confession loses its entry; everything else stays. */
  lemma AnchorDoes(s: State, id: Id)
    ensures var t := Step(s, Anchor(id));
            && t.rows == s.rows && t.now == s.now
            && (forall key :: key in t.data <==> key in s.data && (id in s.rows ==> key != PREFIX + ("confession:" + id)))
            && (forall key | key in t.data :: t.data[key] == s.data[key])
  {
    assert SingleKey(id) == "confession:" + id;
  }
}
