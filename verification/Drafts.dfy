/**
  Confession drafts on the server: the rows, and every request of
  `ConfessionDraftService` as one atomic step.

  Content is kept in the clear.  The source encrypts it with a fresh nonce, so a
  save that carries content always changes the row.
 */
module Drafts {
  import opened Options

  type DraftId = nat
  type UserId = nat

  datatype Status = Unscheduled | Scheduled | Posted

  datatype Revision = Revision(content: string, version: nat, createdAt: nat)

  datatype Draft = Draft(
    userId: UserId,
    content: string,
    category: Option<string>,
    scheduledFor: Option<int>,
    timezone: Option<string>,
    status: Status,
    publishAttempts: nat,
    lastPublishError: Option<string>,
    version: nat,
    revisions: seq<Revision>
  )

  type Table = map<DraftId, Draft>

  /** Ids are never given out twice. */
  datatype Server = Server(drafts: Table, nextId: DraftId, now: nat)

  datatype Update = Update(content: Option<string>, category: Option<string>, version: Option<int>)

  datatype Request =
    | Create(content: string, category: Option<string>, scheduledFor: Option<Option<int>>, timezone: Option<string>)
    | Change(id: DraftId, dto: Update)
    | Delete(id: DraftId)
    | DeleteAll
    | Schedule(id: DraftId, at: Option<int>, timezone: Option<string>)
    | Cancel(id: DraftId)
    | PublishNow(id: DraftId, created: bool)
    | Convert(id: DraftId)

  datatype Answer =
    | Saved(id: DraftId, draft: Draft)
    | Deleted
    | Published(id: DraftId, message: string)
    | RemoteDeleted(id: DraftId)
    | RemoteUpdated(current: Draft)
    | NotFound
    | Forbidden
    | BadRequest
    | ServerError

  // ---- Saving --------------------------------------------------------------

  /** A save bumps the version exactly when it changes the row. */
  function Save(before: Draft, after: Draft): Draft {
    if after == before then before else after.(version := before.version + 1)
  }

  function Newest(revisions: seq<Revision>): seq<Revision> {
    if |revisions| <= 10 then revisions else revisions[..10]
  }

  function Replaced(d: Draft, now: nat): Revision {
    Revision(d.content, d.version, now)
  }

  function OrNull(category: string): Option<string> {
    if category == "" then None else Some(category)
  }

  function Changed(d: Draft, dto: Update, now: nat): Draft {
    var withContent :=
      if dto.content.Some? then
        d.(content := dto.content.value, revisions := Newest([Replaced(d, now)] + d.revisions), version := d.version + 1)
      else d;
    var withCategory :=
      if dto.category.Some? then withContent.(category := OrNull(dto.category.value)) else withContent;
    if dto.content.Some? then withCategory else Save(d, withCategory)
  }

  function PostedBy(d: Draft): Draft {
    d.(status := Posted, scheduledFor := None, publishAttempts := 0, lastPublishError := None)
  }

  const MAX_DRAFTS_PER_USER := 10

  function CountOf(t: Table, user: UserId): nat {
    |set id | id in t && t[id].userId == user|
  }

  // ---- Requests ------------------------------------------------------------

  function UpdateDraft(s: Server, user: UserId, id: DraftId, dto: Update): (Server, Answer) {
    if id !in s.drafts then (s, if dto.version.Some? then RemoteDeleted(id) else NotFound)
    else
      var d := s.drafts[id];
      if d.userId != user then (s, Forbidden)
      else if d.status == Posted then (s, BadRequest)
      else if dto.version.Some? && d.version != dto.version.value then (s, RemoteUpdated(d))
      else (Put(s, id, Changed(d, dto, s.now)), Saved(id, Changed(d, dto, s.now)))
  }

  function Put(s: Server, id: DraftId, d: Draft): Server {
    s.(drafts := s.drafts[id := d])
  }

  function CreateDraft(s: Server, user: UserId, content: string, category: Option<string>,
                       scheduledFor: Option<Option<int>>, timezone: Option<string>): (Server, Answer)
  {
    if CountOf(s.drafts, user) >= MAX_DRAFTS_PER_USER then (s, BadRequest)
    else if scheduledFor.Some? && (scheduledFor.value.None? || scheduledFor.value.value <= s.now) then (s, BadRequest)
    else
      var at := if scheduledFor.Some? then scheduledFor.value else None;
      var status := if at.Some? then Scheduled else Unscheduled;
      var d := Draft(user, content, category, at, timezone, status, 0, None, 1, []);
      (Put(s, s.nextId, d).(nextId := s.nextId + 1), Saved(s.nextId, d))
  }

  /** The checks that come first in every other request. */
  function Owned(s: Server, user: UserId, id: DraftId): Option<Answer> {
    if id !in s.drafts then Some(NotFound)
    else if s.drafts[id].userId != user then Some(Forbidden)
    else None
  }

  function Remove(s: Server, id: DraftId): Server {
    s.(drafts := s.drafts - {id})
  }

  function RemoveAll(s: Server, user: UserId): Server {
    s.(drafts := map id | id in s.drafts && s.drafts[id].userId != user :: s.drafts[id])
  }

  function ScheduleDraft(s: Server, id: DraftId, at: Option<int>, timezone: Option<string>): (Server, Answer)
    requires id in s.drafts
  {
    var d := s.drafts[id];
    if d.status == Posted || at.None? || at.value <= s.now then (s, BadRequest)
    else
      var zone := if timezone.Some? then timezone else d.timezone;
      var saved := Save(d, d.(scheduledFor := at, timezone := zone, status := Scheduled));
      (Put(s, id, saved), Saved(id, saved))
  }

  function CancelSchedule(s: Server, id: DraftId): (Server, Answer)
    requires id in s.drafts
  {
    var d := s.drafts[id];
    if d.status != Scheduled then (s, BadRequest)
    else
      var saved := Save(d, d.(scheduledFor := None, status := Unscheduled));
      (Put(s, id, saved), Saved(id, saved))
  }

  /** `created` tells whether the confession could be created; a failure rolls everything back. */
  function PublishDraftNow(s: Server, id: DraftId, created: bool): (Server, Answer)
    requires id in s.drafts
  {
    var d := s.drafts[id];
    if d.status == Posted then (s, BadRequest)
    else if !created then (s, ServerError)
    else (Put(s, id, Save(d, PostedBy(d))), Published(id, d.content))
  }

  function ConvertPostedToDraft(s: Server, user: UserId, id: DraftId): (Server, Answer)
    requires id in s.drafts
  {
    var d := s.drafts[id];
    if d.status != Posted || CountOf(s.drafts, user) >= MAX_DRAFTS_PER_USER then (s, BadRequest)
    else
      var saved := Save(d, d.(status := Unscheduled, scheduledFor := None, lastPublishError := None, publishAttempts := 0));
      (Put(s, id, saved), Saved(id, saved))
  }

  function Serve(s: Server, user: UserId, r: Request): (Server, Answer) {
    match r
    case Create(content, category, scheduledFor, timezone) => CreateDraft(s, user, content, category, scheduledFor, timezone)
    case Change(id, dto) => UpdateDraft(s, user, id, dto)
    case DeleteAll => (RemoveAll(s, user), Deleted)
    case Delete(id) =>
      if Owned(s, user, id).Some? then (s, Owned(s, user, id).value) else (Remove(s, id), Deleted)
    case Schedule(id, at, timezone) =>
      if Owned(s, user, id).Some? then (s, Owned(s, user, id).value) else ScheduleDraft(s, id, at, timezone)
    case Cancel(id) =>
      if Owned(s, user, id).Some? then (s, Owned(s, user, id).value) else CancelSchedule(s, id)
    case PublishNow(id, created) =>
      if Owned(s, user, id).Some? then (s, Owned(s, user, id).value) else PublishDraftNow(s, id, created)
    case Convert(id) =>
      if Owned(s, user, id).Some? then (s, Owned(s, user, id).value) else ConvertPostedToDraft(s, user, id)
  }

  // ---- What every request keeps --------------------------------------------

  ghost predicate IdsUsed(s: Server) {
    forall id | id in s.drafts :: id < s.nextId
  }

  /** A request that saves content does so on this draft. */
  predicate SavesContent(r: Request, a: Answer) {
    r.Change? && r.dto.content.Some? && a.Saved?
  }

  /**
    No request lowers a version or reuses an id.  Content and revisions change
    only in a save that carries content, and that save moves to the next version.
   */
  lemma ServeKeeps(s: Server, user: UserId, r: Request)
    requires IdsUsed(s)
    ensures var (t, a) := Serve(s, user, r);
            && IdsUsed(t) && s.nextId <= t.nextId && t.now == s.now
            && (forall id | id in t.drafts && id !in s.drafts :: id >= s.nextId && t.drafts[id].revisions == [])
            && (forall id | id in s.drafts && id in t.drafts ::
                  var d, e := s.drafts[id], t.drafts[id];
                  && d.version <= e.version <= d.version + 1
                  && (e.version == d.version ==> e == d)
                  && (!(SavesContent(r, a) && a.id == id) ==> e.content == d.content && e.revisions == d.revisions))
            && (SavesContent(r, a) ==>
                  && a.id == r.id && r.id in s.drafts && r.id in t.drafts
                  && t.drafts[r.id] == Changed(s.drafts[r.id], r.dto, s.now)
                  && t.drafts[r.id].version == s.drafts[r.id].version + 1
                  && (r.dto.version.Some? ==> s.drafts[r.id].version == r.dto.version.value))
  {
  }
}
