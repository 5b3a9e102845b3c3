/**
  What the requests on drafts come to, field by field: when each is accepted, and
  what row it leaves.
 */
module DraftRequests {
  import opened Options
  import opened Drafts

  /** The row of `id` becomes `e`; every other row, the clock and the ids stay. */
  ghost predicate OnlyRow(s: Server, t: Server, id: DraftId, e: Draft) {
    t.drafts == s.drafts[id := e] && t.now == s.now && t.nextId == s.nextId
  }

  /** The two rows say the same, and belong to the same user. */
  predicate SameText(d: Draft, e: Draft) {
    && e.userId == d.userId && e.content == d.content && e.category == d.category && e.revisions == d.revisions
  }

  /** The version moves by one exactly when another field has changed. */
  predicate Versioned(d: Draft, e: Draft) {
    e.version == d.version + if e.(version := d.version) == d then 0 else 1
  }

  predicate Mine(s: Server, user: UserId, id: DraftId) {
    id in s.drafts && s.drafts[id].userId == user
  }

  // ---- Updates -------------------------------------------------------------

  /** The answer to an update that is refused, in the order of the checks; none if it is accepted. */
  function Refusal(s: Server, user: UserId, id: DraftId, version: Option<int>): Option<Answer> {
    if id !in s.drafts && version.Some? then Some(RemoteDeleted(id))
    else if id !in s.drafts then Some(NotFound)
    else if s.drafts[id].userId != user then Some(Forbidden)
    else if s.drafts[id].status == Posted then Some(BadRequest)
    else if version.Some? && version.value != s.drafts[id].version then Some(RemoteUpdated(s.drafts[id]))
    else None
  }

  /**
    An update is accepted exactly when the draft exists, is the user's, is not
    posted, and has the version that the update names, if it names one.
   */
  lemma ChangeAcceptedIff(s: Server, user: UserId, id: DraftId, dto: Update)
    ensures var (t, a) := Serve(s, user, Change(id, dto));
            && (a.Saved? <==>
                  && Mine(s, user, id) && s.drafts[id].status != Posted
                  && (dto.version.Some? ==> dto.version.value == s.drafts[id].version))
            && (!a.Saved? ==> t == s && Refusal(s, user, id, dto.version) == Some(a))
  {
  }

  /** What an accepted update stores, and that the answer is the stored row. */
  lemma ChangeStores(s: Server, user: UserId, id: DraftId, dto: Update)
    requires Serve(s, user, Change(id, dto)).1.Saved?
    ensures var (t, a) := Serve(s, user, Change(id, dto));
            && id in s.drafts && id in t.drafts
            && var d, e := s.drafts[id], t.drafts[id];
               && a == Saved(id, e) && OnlyRow(s, t, id, e)
               && (dto.content.Some? ==>
                     && e.content == dto.content.value
                     && e.version == d.version + 1
                     && |e.revisions| == (if |d.revisions| < 9 then |d.revisions| + 1 else 10)
                     && e.revisions[0] == Revision(d.content, d.version, s.now)
                     && forall i | 1 <= i < |e.revisions| :: e.revisions[i] == d.revisions[i - 1])
               && (dto.content.None? ==> e.content == d.content && e.revisions == d.revisions && Versioned(d, e))
               && (dto.category.None? ==> e.category == d.category)
               && (dto.category == Some("") ==> e.category == None)
               && (dto.category.Some? && dto.category.value != "" ==> e.category == dto.category)
               && e.userId == d.userId && e.status == d.status && e.scheduledFor == d.scheduledFor
               && e.timezone == d.timezone && e.publishAttempts == d.publishAttempts
               && e.lastPublishError == d.lastPublishError
  {
  }

  // ---- The other requests --------------------------------------------------

  /** A user has at most ten drafts, and schedules only for the future. */
  lemma CreateStores(s: Server, user: UserId, content: string, category: Option<string>,
                     scheduledFor: Option<Option<int>>, timezone: Option<string>)
    ensures var (t, a) := Serve(s, user, Create(content, category, scheduledFor, timezone));
            && (a.Saved? <==>
                  && |set id | id in s.drafts && s.drafts[id].userId == user| < 10
                  && (scheduledFor.Some? ==> scheduledFor.value.Some? && scheduledFor.value.value > s.now))
            && (!a.Saved? ==> a == BadRequest && t == s)
            && (a.Saved? ==>
                  && a.id == s.nextId && t.nextId == s.nextId + 1 && t.now == s.now
                  && t.drafts == s.drafts[a.id := a.draft]
                  && a.draft.userId == user && a.draft.content == content && a.draft.category == category
                  && a.draft.timezone == timezone && a.draft.version == 1 && a.draft.revisions == []
                  && a.draft.publishAttempts == 0 && a.draft.lastPublishError == None
                  && (if scheduledFor.Some? then a.draft.scheduledFor == scheduledFor.value && a.draft.status == Scheduled
                      else a.draft.scheduledFor == None && a.draft.status == Unscheduled))
  {
  }

  lemma ScheduleStores(s: Server, user: UserId, id: DraftId, at: Option<int>, timezone: Option<string>)
    ensures var (t, a) := Serve(s, user, Schedule(id, at, timezone));
            && (a.Saved? <==> Mine(s, user, id) && s.drafts[id].status != Posted && at.Some? && at.value > s.now)
            && (!a.Saved? ==> t == s)
            && (a.Saved? ==>
                  && id in t.drafts
                  && var d, e := s.drafts[id], t.drafts[id];
                     && a == Saved(id, e) && OnlyRow(s, t, id, e) && SameText(d, e) && Versioned(d, e)
                     && e.status == Scheduled && e.scheduledFor == at
                     && e.timezone == (if timezone.Some? then timezone else d.timezone)
                     && e.publishAttempts == d.publishAttempts && e.lastPublishError == d.lastPublishError)
  {
  }

  lemma CancelStores(s: Server, user: UserId, id: DraftId)
    ensures var (t, a) := Serve(s, user, Cancel(id));
            && (a.Saved? <==> Mine(s, user, id) && s.drafts[id].status == Scheduled)
            && (!a.Saved? ==> t == s)
            && (a.Saved? ==>
                  && id in t.drafts
                  && var d, e := s.drafts[id], t.drafts[id];
                     && a == Saved(id, e) && OnlyRow(s, t, id, e) && SameText(d, e) && Versioned(d, e)
                     && e.status == Unscheduled && e.scheduledFor == None && e.timezone == d.timezone
                     && e.publishAttempts == d.publishAttempts && e.lastPublishError == d.lastPublishError)
  {
  }

  /** A draft is published with its own text, and is posted then; once. */
  lemma PublishNowStores(s: Server, user: UserId, id: DraftId, created: bool)
    ensures var (t, a) := Serve(s, user, PublishNow(id, created));
            && (a.Published? <==> Mine(s, user, id) && s.drafts[id].status != Posted && created)
            && (!a.Published? ==> t == s)
            && (a.Published? ==>
                  && id in t.drafts
                  && var d, e := s.drafts[id], t.drafts[id];
                     && a == Published(id, d.content) && OnlyRow(s, t, id, e) && SameText(d, e) && Versioned(d, e)
                     && e.status == Posted && e.scheduledFor == None && e.timezone == d.timezone
                     && e.publishAttempts == 0 && e.lastPublishError == None)
  {
  }

  lemma ConvertStores(s: Server, user: UserId, id: DraftId)
    ensures var (t, a) := Serve(s, user, Convert(id));
            && (a.Saved? <==>
                  && Mine(s, user, id) && s.drafts[id].status == Posted
                  && |set other | other in s.drafts && s.drafts[other].userId == user| < 10)
            && (!a.Saved? ==> t == s)
            && (a.Saved? ==>
                  && id in t.drafts
                  && var d, e := s.drafts[id], t.drafts[id];
                     && a == Saved(id, e) && OnlyRow(s, t, id, e) && SameText(d, e) && Versioned(d, e)
                     && e.status == Unscheduled && e.scheduledFor == None && e.timezone == d.timezone
                     && e.publishAttempts == 0 && e.lastPublishError == None)
  {
  }

  lemma DeleteRemoves(s: Server, user: UserId, id: DraftId)
    ensures var (t, a) := Serve(s, user, Delete(id));
            && (a.Deleted? <==> Mine(s, user, id))
            && t == (if a.Deleted? then s.(drafts := map other | other in s.drafts && other != id :: s.drafts[other]) else s)
    ensures var (t, a) := Serve(s, user, DeleteAll);
            && a.Deleted? && t.nextId == s.nextId && t.now == s.now
            && (forall other :: other in t.drafts <==> other in s.drafts && s.drafts[other].userId != user)
            && (forall other | other in t.drafts :: t.drafts[other] == s.drafts[other])
  {
  }
}
