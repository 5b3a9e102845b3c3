/**
  The cache of the confession service: single entries under `confession:<id>`,
  feed and tag pages under `confessions:`, against the table they speed up, which
  administrators write behind its back.

  Requests run one after the other.  Message texts are kept in the clear.
 */
module ConfessionCache {
  import opened Options
  import opened RedisCache

  type Id = string

  datatype Moderation = Pending | Approved | Flagged | Rejected

  datatype Status = Draft | Scheduled(publishAt: nat) | Published

  datatype Row = Row(
    message: string,
    gender: Option<string>,
    createdAt: nat,
    moderation: Moderation,
    isHidden: bool,
    isDeleted: bool,
    status: Status
  )

  /** What a cached single entry says of its confession. */
  datatype View = View(id: Id, message: string, gender: Option<string>, createdAt: nat, moderation: Moderation)

  datatype SlimItem = SlimItem(id: Id, message: string, gender: Option<string>, createdAt: nat, contentWarning: bool)

  datatype CacheValue = Single(view: View) | Page(items: seq<SlimItem>)

  // ---- Keys ----------------------------------------------------------------

  const LIST_PREFIX := "confessions:"

  function SingleKey(id: Id): string { "confession:" + id }

  /** A page's key: the listing prefix, and the parts that identify the page. */
  function ListKey(parts: seq<string>): string
    requires parts != []
  {
    Join(["confessions"] + parts)
  }

  lemma ListKeysHavePrefix(parts: seq<string>)
    requires parts != []
    ensures StartsWith(PREFIX + ListKey(parts), PREFIX + LIST_PREFIX)
  {
    assert (["confessions"] + parts)[1..] == parts;
    assert ListKey(parts) == "confessions" + ":" + Join(parts);
    assert (PREFIX + ListKey(parts))[..|PREFIX + LIST_PREFIX|] == PREFIX + LIST_PREFIX;
  }

  /** No single entry lies under the listing prefix. */
  lemma SinglesAreNotListed(id: Id)
    ensures !StartsWith(PREFIX + SingleKey(id), PREFIX + LIST_PREFIX)
  {
    var full := PREFIX + SingleKey(id);
    assert full[|PREFIX| + 10] == ':';
    assert (PREFIX + LIST_PREFIX)[|PREFIX| + 10] == 's';
  }

  lemma SingleKeysDiffer(a: Id, b: Id)
    requires PREFIX + SingleKey(a) == PREFIX + SingleKey(b)
    ensures a == b
  {
    assert (PREFIX + SingleKey(a))[|PREFIX|..][11..] == a;
    assert (PREFIX + SingleKey(b))[|PREFIX|..][11..] == b;
  }

  // ---- Requests, one atomic step each --------------------------------------

  datatype State = State(rows: map<Id, Row>, data: Data<CacheValue>, now: nat)

  datatype Event =
    | Create(id: Id, message: string, gender: Option<string>, verdict: Moderation)
    | Update(id: Id, edited: Option<string>, gender: Option<string>, verdict: Moderation)
    | Remove(id: Id)
    | Restore(id: Id)
    | DeleteConfession(id: Id)
    | RestoreConfession(id: Id)
    | Moderate(id: Id, verdict: Moderation)
    | AdminDelete(id: Id)
    | AdminHide(id: Id)
    | AdminUnhide(id: Id)
    | Anchor(id: Id)
    | Schedule(id: Id, publishAt: nat)
    | CancelSchedule(id: Id)
    | PublishDue
    | ReadOne(id: Id)
    | ReadFeed(parts: seq<string>, selected: seq<Id>)
    | ReadTag(parts: seq<string>, selected: seq<Id>)
    | Elapse(ms: nat)

  predicate Visible(r: Row) { !r.isDeleted && !r.isHidden }

  function ViewOf(id: Id, r: Row): View {
    View(id, r.message, r.gender, r.createdAt, r.moderation)
  }

  function SlimOf(id: Id, r: Row): SlimItem {
    SlimItem(id, r.message, r.gender, r.createdAt, r.moderation == Flagged)
  }

  /** The conditions of the tag query; the feed query has two more. */
  predicate TagListed(r: Row) {
    Visible(r) && (r.moderation == Approved || r.moderation == Pending)
  }

  predicate FeedListed(r: Row, now: nat) {
    TagListed(r) && !r.status.Draft? && (r.status.Scheduled? ==> r.status.publishAt <= now)
  }

  function EvictEntry(data: Data<CacheValue>, id: Id): Data<CacheValue> {
    Without(data - {PREFIX + SingleKey(id)}, PREFIX + LIST_PREFIX)
  }

  function Write(s: State, id: Id, r: Row): State {
    s.(rows := s.rows[id := r], data := EvictEntry(s.data, id))
  }

  /** A write of the row that leaves the cache alone. */
  function Behind(s: State, id: Id, r: Row): State {
    s.(rows := s.rows[id := r])
  }

  function CreateStep(s: State, id: Id, message: string, gender: Option<string>, verdict: Moderation): State {
    if id in s.rows then s
    else
      var r := Row(message, gender, s.now, verdict, verdict == Rejected, false, Published);
      s.(rows := s.rows[id := r], data := Without(s.data, PREFIX + LIST_PREFIX))
  }

  function UpdateStep(s: State, id: Id, message: Option<string>, gender: Option<string>, verdict: Moderation): State {
    if id !in s.rows || s.rows[id].isDeleted || message == Some("") then s
    else
      var r := s.rows[id];
      var g := if gender.Some? then gender else r.gender;
      Write(s, id,
            if message.Some? then
              r.(message := message.value, gender := g, moderation := verdict, isHidden := verdict == Rejected)
            else r.(gender := g))
  }

  predicate IsDue(r: Row, now: nat) {
    r.status.Scheduled? && r.status.publishAt <= now
  }

  function DueIds(s: State): set<Id> {
    set id | id in s.rows && IsDue(s.rows[id], s.now)
  }

  function PublishedRow(r: Row, now: nat): Row {
    r.(status := Published, createdAt := now)
  }

  function SingleKeys(ids: set<Id>): set<string> {
    set id | id in ids :: PREFIX + SingleKey(id)
  }

  function PublishStep(s: State): State {
    var due := DueIds(s);
    if due == {} then s
    else
      s.(rows := map id | id in s.rows :: if id in due then PublishedRow(s.rows[id], s.now) else s.rows[id],
         data := Without(s.data - SingleKeys(due), PREFIX + LIST_PREFIX))
  }

  const SINGLE_TTL := 1800
  const LIST_TTL := 300

  function ReadOneStep(s: State, id: Id): State {
    var key := PREFIX + SingleKey(id);
    if Lookup(s.data, key, s.now).Some? || id !in s.rows || !Visible(s.rows[id]) then s
    else s.(data := Stored(s.data, key, Single(ViewOf(id, s.rows[id])), SINGLE_TTL * 1000, s.now))
  }

  function Slim(rows: map<Id, Row>, ids: seq<Id>): seq<SlimItem>
    requires forall id | id in ids :: id in rows
  {
    if ids == [] then [] else [SlimOf(ids[0], rows[ids[0]])] + Slim(rows, ids[1..])
  }

  predicate FeedSelects(s: State, ids: seq<Id>) {
    forall id | id in ids :: id in s.rows && FeedListed(s.rows[id], s.now)
  }

  predicate TagSelects(s: State, ids: seq<Id>) {
    forall id | id in ids :: id in s.rows && TagListed(s.rows[id])
  }

  function ReadListStep(s: State, parts: seq<string>, ids: seq<Id>): State
    requires parts != [] && TagSelects(s, ids)
  {
    var key := PREFIX + ListKey(parts);
    if Lookup(s.data, key, s.now).Some? then s
    else s.(data := Stored(s.data, key, Page(Slim(s.rows, ids)), LIST_TTL * 1000, s.now))
  }

  function Step(s: State, e: Event): State {
    match e
    case Create(id, message, gender, verdict) => CreateStep(s, id, message, gender, verdict)
    case Update(id, message, gender, verdict) => UpdateStep(s, id, message, gender, verdict)
    case Remove(id) =>
      if id !in s.rows || s.rows[id].isDeleted then s else Write(s, id, s.rows[id].(isDeleted := true))
    case Restore(id) =>
      if id !in s.rows || !s.rows[id].isDeleted then s else Write(s, id, s.rows[id].(isDeleted := false))
    case DeleteConfession(id) => if id !in s.rows then s else Write(s, id, s.rows[id].(isDeleted := true))
    case RestoreConfession(id) => if id !in s.rows then s else Write(s, id, s.rows[id].(isDeleted := false))
    case Moderate(id, verdict) =>
      if id !in s.rows then s else Write(s, id, s.rows[id].(moderation := verdict, isHidden := verdict == Rejected))
    case AdminDelete(id) => if id !in s.rows then s else Behind(s, id, s.rows[id].(isDeleted := true))
    case AdminHide(id) => if id !in s.rows then s else Behind(s, id, s.rows[id].(isHidden := true))
    case AdminUnhide(id) => if id !in s.rows then s else Behind(s, id, s.rows[id].(isHidden := false))
    case Anchor(id) => if id !in s.rows then s else s.(data := s.data - {PREFIX + SingleKey(id)})
    case Schedule(id, at) =>
      if id !in s.rows || at <= s.now then s else s.(rows := s.rows[id := s.rows[id].(status := Scheduled(at))])
    case CancelSchedule(id) => if id !in s.rows then s else s.(rows := s.rows[id := s.rows[id].(status := Draft)])
    case PublishDue => PublishStep(s)
    case ReadOne(id) => ReadOneStep(s, id)
    case ReadFeed(parts, ids) =>
      if parts == [] || !FeedSelects(s, ids) then s else ReadListStep(s, parts, ids)
    case ReadTag(parts, ids) =>
      if parts == [] || !TagSelects(s, ids) then s else ReadListStep(s, parts, ids)
    case Elapse(ms) => s.(now := s.now + ms)
  }

  function Run(s: State, trace: seq<Event>): State
    decreases |trace|
  {
    if trace == [] then s else Run(Step(s, trace[0]), trace[1..])
  }

  // ---- Coherence -----------------------------------------------------------

  /** Whatever is under a confession's key shows the row as it is now, though the row may be hidden by now. */
  ghost predicate SingleOk(s: State, id: Id) {
    PREFIX + SingleKey(id) in s.data ==>
      id in s.rows && s.data[PREFIX + SingleKey(id)].value == Single(ViewOf(id, s.rows[id]))
  }

  ghost predicate ItemOk(s: State, item: SlimItem) {
    && item.id in s.rows
    && (s.rows[item.id].moderation == Approved || s.rows[item.id].moderation == Pending)
    && item == SlimOf(item.id, s.rows[item.id])
  }

  ghost predicate PageOk(s: State, key: string)
    requires key in s.data
  {
    s.data[key].value.Page? && forall item | item in s.data[key].value.items :: ItemOk(s, item)
  }

  ghost predicate Coherent(s: State) {
    && (forall id :: SingleOk(s, id))
    && (forall key | key in s.data && StartsWith(key, PREFIX + LIST_PREFIX) :: PageOk(s, key))
  }

  /** A write to some rows that evicts their entries and every listing. */
  lemma EvictingWriteKeeps(s: State, t: State, ids: set<Id>)
    requires Coherent(s)
    requires t.data == Without(s.data - SingleKeys(ids), PREFIX + LIST_PREFIX)
    requires forall id | id in s.rows && id !in ids :: id in t.rows && t.rows[id] == s.rows[id]
    ensures Coherent(t)
  {
    forall id ensures SingleOk(t, id) {
      var key := PREFIX + SingleKey(id);
      if key in t.data {
        assert SingleOk(s, id);
        assert key !in SingleKeys(ids);
        assert id !in ids;
      }
    }
  }

  lemma WriteKeeps(s: State, id: Id, r: Row)
    requires Coherent(s)
    ensures Coherent(Write(s, id, r))
  {
    assert SingleKeys({id}) == {PREFIX + SingleKey(id)};
    EvictingWriteKeeps(s, Write(s, id, r), {id});
  }

  lemma CreateKeeps(s: State, id: Id, message: string, gender: Option<string>, verdict: Moderation)
    requires Coherent(s)
    ensures Coherent(CreateStep(s, id, message, gender, verdict))
  {
    if id !in s.rows {
      assert SingleKeys({}) == {} && s.data - {} == s.data;
      EvictingWriteKeeps(s, CreateStep(s, id, message, gender, verdict), {});
    }
  }

  lemma PublishKeeps(s: State)
    requires Coherent(s)
    ensures Coherent(PublishStep(s))
  {
    if DueIds(s) != {} { EvictingWriteKeeps(s, PublishStep(s), DueIds(s)); }
  }

  /** A step that changes no field which an entry shows, and adds no entry. */
  lemma ShrinkKeeps(s: State, t: State)
    requires Coherent(s)
    requires forall key | key in t.data :: key in s.data && t.data[key] == s.data[key]
    requires forall id | id in s.rows ::
               id in t.rows
               && t.rows[id] == s.rows[id].(status := t.rows[id].status, isHidden := t.rows[id].isHidden,
                                            isDeleted := t.rows[id].isDeleted)
    ensures Coherent(t)
  {
    forall id ensures SingleOk(t, id) { assert SingleOk(s, id); }
    forall key | key in t.data && StartsWith(key, PREFIX + LIST_PREFIX) ensures PageOk(t, key) {
      assert PageOk(s, key);
      forall item | item in t.data[key].value.items ensures ItemOk(t, item) { assert ItemOk(s, item); }
    }
  }

  lemma ReadOneKeeps(s: State, id: Id)
    requires Coherent(s)
    ensures Coherent(ReadOneStep(s, id))
  {
    var t := ReadOneStep(s, id);
    var key := PREFIX + SingleKey(id);
    forall other ensures SingleOk(t, other) {
      assert SingleOk(s, other);
      if PREFIX + SingleKey(other) == key { SingleKeysDiffer(other, id); }
    }
    SinglesAreNotListed(id);
    forall k | k in t.data && StartsWith(k, PREFIX + LIST_PREFIX) ensures PageOk(t, k) {
      assert PageOk(s, k);
      forall item | item in t.data[k].value.items ensures ItemOk(t, item) { assert ItemOk(s, item); }
    }
  }

  lemma {:induction false} SlimItemsAreOk(s: State, ids: seq<Id>)
    requires TagSelects(s, ids)
    ensures forall item | item in Slim(s.rows, ids) :: ItemOk(s, item)
  {
    if ids != [] { SlimItemsAreOk(s, ids[1..]); }
  }

  lemma ReadListKeeps(s: State, parts: seq<string>, ids: seq<Id>)
    requires Coherent(s) && parts != [] && TagSelects(s, ids)
    ensures Coherent(ReadListStep(s, parts, ids))
  {
    var t := ReadListStep(s, parts, ids);
    ListKeysHavePrefix(parts);
    SlimItemsAreOk(s, ids);
    forall id ensures SingleOk(t, id) {
      assert SingleOk(s, id);
      SinglesAreNotListed(id);
    }
    forall k | k in t.data && StartsWith(k, PREFIX + LIST_PREFIX) ensures PageOk(t, k) {
      if k != PREFIX + ListKey(parts) || t == s { assert PageOk(s, k); }
      forall item | item in t.data[k].value.items ensures ItemOk(t, item) { assert ItemOk(s, item); }
    }
  }

  lemma StepKeeps(s: State, e: Event)
    requires Coherent(s)
    ensures Coherent(Step(s, e))
  {
    match e
    case Create(id, message, gender, verdict) => CreateKeeps(s, id, message, gender, verdict);
    case PublishDue => PublishKeeps(s);
    case ReadOne(id) => ReadOneKeeps(s, id);
    case ReadFeed(parts, ids) => if parts != [] && FeedSelects(s, ids) { ReadListKeeps(s, parts, ids); }
    case ReadTag(parts, ids) => if parts != [] && TagSelects(s, ids) { ReadListKeeps(s, parts, ids); }
    case Anchor(_) => ShrinkKeeps(s, Step(s, e));
    case AdminDelete(_) => ShrinkKeeps(s, Step(s, e));
    case AdminHide(_) => ShrinkKeeps(s, Step(s, e));
    case AdminUnhide(_) => ShrinkKeeps(s, Step(s, e));
    case Schedule(_, _) => ShrinkKeeps(s, Step(s, e));
    case CancelSchedule(_) => ShrinkKeeps(s, Step(s, e));
    case Elapse(_) => ShrinkKeeps(s, Step(s, e));
    case _ =>
      if Step(s, e) != s { WriteKeeps(s, e.id, Step(s, e).rows[e.id]); }
  }

  lemma {:induction false} RunKeeps(s: State, trace: seq<Event>)
    requires Coherent(s)
    ensures Coherent(Run(s, trace))
    decreases |trace|
  {
    if trace != [] {
      StepKeeps(s, trace[0]);
      RunKeeps(Step(s, trace[0]), trace[1..]);
    }
  }

  // ---- Writes behind the cache ---------------------------------------------

  /**
    What administrators have changed behind the cache: the pairs of a cached key
    and a confession whose visibility an administrator changed after the value
    under that key was stored.
   */
  type Log = set<(string, Id)>

  predicate IsAdminWrite(e: Event) {
    e.AdminDelete? || e.AdminHide? || e.AdminUnhide?
  }

  predicate ChangesBehind(s: State, e: Event) {
    IsAdminWrite(e) && Step(s, e) != s
  }

  /** The value under the key is the one that was there before. */
  predicate Held(s: State, t: State, key: string) {
    key in s.data && key in t.data && s.data[key] == t.data[key]
  }

  function LogStep(s: State, e: Event, log: Log): Log {
    (set p | p in log && Held(s, Step(s, e), p.0))
    + (if ChangesBehind(s, e) then set key | key in s.data :: (key, e.id) else {})
  }

  function RunLog(s: State, trace: seq<Event>, log: Log): Log
    decreases |trace|
  {
    if trace == [] then log else RunLog(Step(s, trace[0]), trace[1..], LogStep(s, trace[0], log))
  }

  ghost predicate Shows(value: CacheValue, id: Id) {
    match value
    case Single(view) => view.id == id
    case Page(items) => exists item :: item in items && item.id == id
  }

  /** Whatever the cache shows of a confession that is hidden or deleted is logged. */
  ghost predicate Explained(s: State, log: Log) {
    forall key, id | key in s.data && Shows(s.data[key].value, id) ::
      id in s.rows && (Visible(s.rows[id]) || (key, id) in log)
  }

  /** The service hides a row only in a write that evicts whatever shows it. */
  lemma HidingEvicts(s: State, e: Event, id: Id)
    requires id in s.rows && Visible(s.rows[id]) && !IsAdminWrite(e)
    ensures var t := Step(s, e);
            id in t.rows && (Visible(t.rows[id]) || t.data == EvictEntry(s.data, id))
  {
  }

  lemma RowsStay(s: State, e: Event, id: Id)
    requires id in s.rows
    ensures id in Step(s, e).rows
  {
  }

  lemma {:induction false} SlimShowsSelected(rows: map<Id, Row>, ids: seq<Id>)
    requires forall id | id in ids :: id in rows
    ensures forall item | item in Slim(rows, ids) :: item.id in ids
  {
    if ids != [] { SlimShowsSelected(rows, ids[1..]); }
  }

  /** What a step stores shows visible rows only. */
  lemma StoredIsVisible(s: State, e: Event, key: string, id: Id)
    requires var t := Step(s, e); key in t.data && !Held(s, t, key) && Shows(t.data[key].value, id)
    ensures Step(s, e).rows == s.rows && id in s.rows && Visible(s.rows[id])
  {
    match e
    case ReadOne(_) =>
    case ReadFeed(_, ids) => if FeedSelects(s, ids) { SlimShowsSelected(s.rows, ids); }
    case ReadTag(_, ids) => if TagSelects(s, ids) { SlimShowsSelected(s.rows, ids); }
    case _ =>
  }

  /** Everything the cache holds is a single entry under its own key, or a page under the listing prefix. */
  ghost predicate Shelved(s: State) {
    forall key, id | key in s.data && Shows(s.data[key].value, id) ::
      key == PREFIX + SingleKey(id) || StartsWith(key, PREFIX + LIST_PREFIX)
  }

  lemma StepShelves(s: State, e: Event)
    requires Shelved(s)
    ensures Shelved(Step(s, e))
  {
    var t := Step(s, e);
    match e
    case ReadFeed(parts, _) => if parts != [] { ListKeysHavePrefix(parts); }
    case ReadTag(parts, _) => if parts != [] { ListKeysHavePrefix(parts); }
    case _ =>
  }

  lemma HeldIsExplained(s: State, e: Event, log: Log, key: string, id: Id)
    requires Explained(s, log) && Shelved(s)
    requires Held(s, Step(s, e), key) && Shows(s.data[key].value, id)
    ensures var t := Step(s, e); id in t.rows && (Visible(t.rows[id]) || (key, id) in LogStep(s, e, log))
  {
    var t := Step(s, e);
    RowsStay(s, e, id);
    if Visible(s.rows[id]) && !Visible(t.rows[id]) {
      if IsAdminWrite(e) { assert e.id == id; }
      else { HidingEvicts(s, e, id); assert false; }
    }
  }

  lemma StepExplains(s: State, e: Event, log: Log)
    requires Explained(s, log) && Shelved(s)
    ensures Explained(Step(s, e), LogStep(s, e, log))
  {
    var t := Step(s, e);
    forall key, id | key in t.data && Shows(t.data[key].value, id)
      ensures id in t.rows && (Visible(t.rows[id]) || (key, id) in LogStep(s, e, log))
    {
      if Held(s, t, key) { HeldIsExplained(s, e, log, key, id); } else { StoredIsVisible(s, e, key, id); }
    }
  }

  lemma {:induction false} RunExplains(s: State, trace: seq<Event>, log: Log)
    requires Explained(s, log) && Shelved(s)
    ensures Explained(Run(s, trace), RunLog(s, trace, log))
    decreases |trace|
  {
    if trace != [] {
      StepShelves(s, trace[0]);
      StepExplains(s, trace[0], log);
      RunExplains(Step(s, trace[0]), trace[1..], LogStep(s, trace[0], log));
    }
  }

  lemma {:induction false} NothingLogged(s: State, trace: seq<Event>)
    requires forall e | e in trace :: !IsAdminWrite(e)
    ensures RunLog(s, trace, {}) == {}
    decreases |trace|
  {
    if trace != [] {
      assert trace[0] in trace;
      assert LogStep(s, trace[0], {}) == {};
      NothingLogged(Step(s, trace[0]), trace[1..]);
    }
  }

  // ---- Main results --------------------------------------------------------

  /** `getConfessionByIdWithViewCount`: the cached view, or the row's; `None` is "not found". */
  function Answer(s: State, id: Id): Option<View> {
    var cached := Lookup(s.data, PREFIX + SingleKey(id), s.now);
    if cached.Some? && cached.value.Single? then Some(cached.value.view) else Direct(s.rows, id)
  }

  /** A feed or tag page: the cached one, or what the query selects. */
  function Served(s: State, parts: seq<string>, ids: seq<Id>): seq<SlimItem>
    requires parts != [] && TagSelects(s, ids)
  {
    var cached := Lookup(s.data, PREFIX + ListKey(parts), s.now);
    if cached.Some? && cached.value.Page? then cached.value.items else Slim(s.rows, ids)
  }

  /** The answer without a cache. */
  function Direct(rows: map<Id, Row>, id: Id): Option<View> {
    if id in rows && Visible(rows[id]) then Some(ViewOf(id, rows[id])) else None
  }

  /**
    After any run from an empty cache: what a read through the cache shows is
    the row as it is now.  It differs from what the table would answer exactly
    when the entry is live, the row is hidden or deleted, and an administrator
    changed the row after the entry was stored.
   */
  lemma StaleReadIff(s: State, trace: seq<Event>, id: Id)
    requires s.data == map[]
    ensures var t := Run(s, trace);
            && (Answer(t, id).Some? ==> id in t.rows && Answer(t, id).value == ViewOf(id, t.rows[id]))
            && (Answer(t, id) != Direct(t.rows, id) <==>
                  && Lookup(t.data, PREFIX + SingleKey(id), t.now).Some?
                  && id in t.rows && !Visible(t.rows[id])
                  && (PREFIX + SingleKey(id), id) in RunLog(s, trace, {}))
  {
    RunKeeps(s, trace);
    RunExplains(s, trace, {});
    assert SingleOk(Run(s, trace), id);
  }

  /** So a read is transparent when no administrator changed the row after its entry was stored. */
  lemma CacheIsTransparent(s: State, trace: seq<Event>, id: Id)
    requires s.data == map[] && (PREFIX + SingleKey(id), id) !in RunLog(s, trace, {})
    ensures Answer(Run(s, trace), id) == Direct(Run(s, trace).rows, id)
  {
    StaleReadIff(s, trace, id);
  }

  /** And it is while the service is the only one that writes. */
  lemma ServiceAloneIsTransparent(s: State, trace: seq<Event>, id: Id)
    requires s.data == map[] && forall e | e in trace :: !IsAdminWrite(e)
    ensures Answer(Run(s, trace), id) == Direct(Run(s, trace).rows, id)
  {
    NothingLogged(s, trace);
    CacheIsTransparent(s, trace, id);
  }

  /**
    A confession that was read and then hidden or deleted by an administrator is
    served on, for half an hour.
   */
  lemma HiddenIsServed(s: State, id: Id, change: Event, ms: nat)
    requires id in s.rows && Visible(s.rows[id]) && Lookup(s.data, PREFIX + SingleKey(id), s.now).None?
    requires change == AdminHide(id) || change == AdminDelete(id)
    ensures var t := Run(s, [ReadOne(id), change, Elapse(ms)]);
            && Direct(t.rows, id) == None
            && (Answer(t, id) == Some(ViewOf(id, s.rows[id])) <==> ms < 1_800_000)
  {
    var a := Step(s, ReadOne(id));
    var b := Step(a, change);
    var c := Step(b, Elapse(ms));
    assert c.data[PREFIX + SingleKey(id)] == Entry(Single(ViewOf(id, s.rows[id])), Some(s.now + SINGLE_TTL * 1000));
    assert Run(b, [Elapse(ms)]) == Run(c, []);
    assert Run(a, [change, Elapse(ms)]) == Run(b, [Elapse(ms)]);
    assert Run(s, [ReadOne(id), change, Elapse(ms)]) == Run(a, [change, Elapse(ms)]);
  }

  /**
    After any run from an empty cache, every item of every cached page shows the
    current message, gender and creation time of a confession that is neither
    rejected nor flagged; and if that is hidden or deleted, an administrator
    made the change after the page was stored.
   */
  lemma CachedPagesAreCurrent(s: State, trace: seq<Event>, parts: seq<string>, item: SlimItem)
    requires s.data == map[] && parts != []
    requires var t := Run(s, trace);
             PREFIX + ListKey(parts) in t.data && t.data[PREFIX + ListKey(parts)].value.Page?
             && item in t.data[PREFIX + ListKey(parts)].value.items
    ensures var t := Run(s, trace);
            && ItemOk(t, item)
            && (Visible(t.rows[item.id]) || (PREFIX + ListKey(parts), item.id) in RunLog(s, trace, {}))
  {
    RunKeeps(s, trace);
    RunExplains(s, trace, {});
    ListKeysHavePrefix(parts);
    assert PageOk(Run(s, trace), PREFIX + ListKey(parts));
    assert Shows(Run(s, trace).data[PREFIX + ListKey(parts)].value, item.id);
  }

  /** Evicting the listings removes every page and no single entry, whatever the ids and the page keys. */
  lemma EvictionIsExact(data: Data<CacheValue>, id: Id, parts: seq<string>)
    requires parts != []
    ensures var left := Without(data, PREFIX + LIST_PREFIX);
            && PREFIX + ListKey(parts) !in left
            && (PREFIX + SingleKey(id) in data <==> PREFIX + SingleKey(id) in left)
            && (PREFIX + SingleKey(id) in left ==> left[PREFIX + SingleKey(id)] == data[PREFIX + SingleKey(id)])
  {
    ListKeysHavePrefix(parts);
    SinglesAreNotListed(id);
  }
}
