/**
  Offline draft sync: the service worker replays queued edits against the
  server's versioned drafts.

  Any number of workers take the steps of `replaySyncQueue` one request or one
  store write at a time.  Between any two steps other sessions may use the
  server, new edits may be queued, and a worker may stop for good.
 */
module DraftSync {
  import opened Options
  import opened Drafts

  type ItemId = nat
  type WorkerId = nat

  /** A queued write: a versioned or unversioned update of one draft. */
  datatype Edit = Edit(user: UserId, draft: DraftId, dto: Update)

  datatype Item = Item(id: ItemId, edit: Edit)

  datatype Reason = Updated | Gone

  datatype Conflict =
    Conflict(draft: DraftId, reason: Reason, baseVersion: Option<int>, localBody: Option<string>, remote: Option<Draft>)

  datatype Worker =
    | Idle
    | Sending(todo: seq<Item>)
    | Answered(todo: seq<Item>, answer: Answer, late: bool)
    | Recorded(todo: seq<Item>)

  /** An answer that a worker acted on; a late one is to an edit that was accepted before it was sent. */
  datatype Handled = Handled(item: ItemId, answer: Answer, late: bool)

  /** A save of content: who made it, and what it replaced. */
  datatype ContentSave = ContentSave(item: Option<ItemId>, draft: DraftId, replaced: Revision, content: string)

  datatype State = State(
    server: Server,
    pending: map<ItemId, Edit>,
    nextItem: ItemId,
    conflicts: map<nat, Conflict>,
    nextConflict: nat,
    workers: map<WorkerId, Worker>,
    // What has happened so far; no step looks at these.
    queued: map<ItemId, Edit>,
    accepted: set<ItemId>,
    dismissed: seq<Conflict>,
    saves: seq<ContentSave>,
    handled: set<Handled>,
    recordedFor: map<nat, ItemId>
  )

  /** How one request fares: an answer, an answer that gets lost, or no effect at all. */
  datatype Delivery = Arrives | ReplyLost | Fails

  datatype Event =
    | Queue(edit: Edit)
    | Start(w: WorkerId)
    | Act(w: WorkerId, delivery: Delivery)
    | Stop(w: WorkerId)
    | Dismiss(conflict: nat)
    | Elsewhere(user: UserId, request: Request)
    | Elapse(ms: nat)

  // ---- Steps ---------------------------------------------------------------

  predicate IsConflict(a: Answer) {
    a.RemoteDeleted? || a.RemoteUpdated?
  }

  function ConflictOf(edit: Edit, a: Answer): Conflict
    requires IsConflict(a)
  {
    Conflict(edit.draft, if a.RemoteDeleted? then Gone else Updated, edit.dto.version, edit.dto.content,
             if a.RemoteUpdated? then Some(a.current) else None)
  }

  function Logged(saves: seq<ContentSave>, s: Server, item: Option<ItemId>, r: Request, a: Answer): seq<ContentSave> {
    if SavesContent(r, a) && r.id in s.drafts then
      saves + [ContentSave(item, r.id, Replaced(s.drafts[r.id], s.now), r.dto.content.value)]
    else saves
  }

  function Become(s: State, w: WorkerId, worker: Worker): State {
    s.(workers := s.workers[w := worker])
  }

  /** The server takes in an item that a worker sends. */
  function TakeIn(s: State, item: Item): (State, Answer) {
    var r := Change(item.edit.draft, item.edit.dto);
    var (server, a) := Serve(s.server, item.edit.user, r);
    (s.(server := server,
        accepted := if a.Saved? then s.accepted + {item.id} else s.accepted,
        saves := Logged(s.saves, s.server, Some(item.id), r, a)),
     a)
  }

  function Send(s: State, w: WorkerId, todo: seq<Item>, delivery: Delivery): State
    requires todo != []
  {
    if delivery.Fails? then Become(s, w, Sending(todo[1..]))
    else
      var (t, a) := TakeIn(s, todo[0]);
      Become(t, w, if delivery.Arrives? then Answered(todo, a, todo[0].id in s.accepted) else Sending(todo[1..]))
  }

  function Note(s: State, todo: seq<Item>, a: Answer, late: bool): State
    requires todo != []
  {
    s.(handled := s.handled + {Handled(todo[0].id, a, late)})
  }

  function Forget(s: State, w: WorkerId, todo: seq<Item>): State
    requires todo != []
  {
    Become(s.(pending := s.pending - {todo[0].id}), w, Sending(todo[1..]))
  }

  function Record(s: State, w: WorkerId, todo: seq<Item>, a: Answer): State
    requires todo != [] && IsConflict(a)
  {
    Become(s.(conflicts := s.conflicts[s.nextConflict := ConflictOf(todo[0].edit, a)],
              recordedFor := s.recordedFor[s.nextConflict := todo[0].id],
              nextConflict := s.nextConflict + 1),
           w, Recorded(todo))
  }

  function WorkerStep(s: State, w: WorkerId, delivery: Delivery): State
    requires w in s.workers
  {
    match s.workers[w]
    case Idle => s
    case Sending(todo) => if todo == [] then Become(s, w, Idle) else Send(s, w, todo, delivery)
    case Answered(todo, a, late) =>
      if todo == [] then s
      else
        var noted := Note(s, todo, a, late);
        if IsConflict(a) then Record(noted, w, todo, a)
        else if a.Saved? then Forget(noted, w, todo)
        else Become(noted, w, Sending(todo[1..]))
    case Recorded(todo) => if todo == [] then s else Forget(s, w, todo)
  }

  /** `getAll`: the pending items in the order of their ids. */
  function Snapshot(pending: map<ItemId, Edit>, bound: ItemId): seq<Item> {
    if bound == 0 then []
    else
      Snapshot(pending, bound - 1)
      + (if bound - 1 in pending then [Item(bound - 1, pending[bound - 1])] else [])
  }

  function Step(s: State, e: Event): State {
    match e
    case Queue(edit) =>
      s.(pending := s.pending[s.nextItem := edit], queued := s.queued[s.nextItem := edit], nextItem := s.nextItem + 1)
    case Start(w) =>
      if w in s.workers && !s.workers[w].Idle? then s else Become(s, w, Sending(Snapshot(s.pending, s.nextItem)))
    case Act(w, delivery) => if w in s.workers then WorkerStep(s, w, delivery) else s
    case Stop(w) => Become(s, w, Idle)
    case Dismiss(c) =>
      if c in s.conflicts then s.(conflicts := s.conflicts - {c}, dismissed := s.dismissed + [s.conflicts[c]]) else s
    case Elsewhere(user, r) =>
      var (server, a) := Serve(s.server, user, r);
      s.(server := server, saves := Logged(s.saves, s.server, None, r, a))
    case Elapse(ms) => s.(server := s.server.(now := s.server.now + ms))
  }

  function Run(s: State, trace: seq<Event>): State
    decreases |trace|
  {
    if trace == [] then s else Run(Step(s, trace[0]), trace[1..])
  }

  ghost predicate Initial(s: State) {
    && s.pending == s.queued == map[] && s.conflicts == map[] && s.accepted == {}
    && s.dismissed == [] && s.saves == [] && s.workers == map[] && s.handled == {} && s.recordedFor == map[]
    && IdsUsed(s.server)
    && forall id | id in s.server.drafts :: s.server.drafts[id].revisions == []
  }

  // ---- The client's side of the invariant ----------------------------------

  ghost predicate Tells(c: Conflict, edit: Edit) {
    c.draft == edit.draft && c.baseVersion == edit.dto.version && c.localBody == edit.dto.content
  }

  /** A conflict record with the edit's text and base version is, or was until dismissed, in the store. */
  ghost predicate Kept(s: State, edit: Edit) {
    (exists c :: c in s.conflicts && Tells(s.conflicts[c], edit)) || (exists c :: c in s.dismissed && Tells(c, edit))
  }

  ghost predicate Accounted(s: State, i: ItemId)
    requires i in s.queued
  {
    (i in s.pending && s.pending[i] == s.queued[i]) || i in s.accepted || Kept(s, s.queued[i])
  }

  ghost predicate Known(s: State, todo: seq<Item>) {
    forall item | item in todo :: item.id in s.queued && s.queued[item.id] == item.edit
  }

  ghost predicate WorkerOk(s: State, worker: Worker) {
    match worker
    case Idle => true
    case Sending(todo) => Known(s, todo)
    case Answered(todo, a, _) => todo != [] && Known(s, todo) && (a.Saved? ==> todo[0].id in s.accepted)
    case Recorded(todo) => todo != [] && Known(s, todo) && Kept(s, todo[0].edit)
  }

  ghost predicate ClientInv(s: State) {
    && (forall i | i in s.pending :: i in s.queued && s.pending[i] == s.queued[i])
    && (forall i | i in s.queued :: i < s.nextItem)
    && s.accepted <= s.queued.Keys
    && (forall c | c in s.conflicts :: c < s.nextConflict)
    && (forall w | w in s.workers :: WorkerOk(s, s.workers[w]))
    && (forall i | i in s.queued :: Accounted(s, i))
  }

  /** What the client's side never loses from one state to a later one. */
  ghost predicate Grows(s: State, t: State) {
    && (forall i | i in s.queued :: i in t.queued && t.queued[i] == s.queued[i])
    && s.accepted <= t.accepted
    && (forall edit | Kept(s, edit) :: Kept(t, edit))
  }

  lemma GrowsKeepsWorkers(s: State, t: State, worker: Worker)
    requires Grows(s, t) && WorkerOk(s, worker)
    ensures WorkerOk(t, worker)
  {
  }

  // ---- The server's side ---------------------------------------------------

  /** The versions that saves of one draft replaced, newest first. */
  function History(saves: seq<ContentSave>, id: DraftId): seq<Revision> {
    if saves == [] then []
    else
      var n := |saves| - 1;
      (if saves[n].draft == id then [saves[n].replaced] else []) + History(saves[..n], id)
  }

  /** The content that the last save of a draft stored. */
  function LastContent(saves: seq<ContentSave>, id: DraftId): Option<string> {
    if saves == [] then None
    else
      var n := |saves| - 1;
      if saves[n].draft == id then Some(saves[n].content) else LastContent(saves[..n], id)
  }

  ghost predicate SavesOk(s: State) {
    && (forall i | 0 <= i < |s.saves| :: SaveOk(s, s.saves[i]))
    && (forall i, j | 0 <= i < j < |s.saves| && s.saves[i].draft == s.saves[j].draft ::
          s.saves[i].replaced.version < s.saves[j].replaced.version)
    && (forall i | 0 <= i < |s.saves| :: LinkOk(s.saves, i))
  }

  ghost predicate SaveOk(s: State, save: ContentSave) {
    && save.draft < s.server.nextId
    && (save.draft in s.server.drafts ==> save.replaced.version < s.server.drafts[save.draft].version)
    && (save.item.Some? ==>
          && save.item.value in s.queued
          && save.item.value in s.accepted
          && var edit := s.queued[save.item.value];
             && save.draft == edit.draft && edit.dto.content == Some(save.content)
             && (edit.dto.version.Some? ==> save.replaced.version == edit.dto.version.value))
  }

  /** A save replaces what the save before it stored. */
  ghost predicate LinkOk(saves: seq<ContentSave>, i: nat)
    requires i < |saves|
  {
    var before := LastContent(saves[..i], saves[i].draft);
    before.Some? ==> saves[i].replaced.content == before.value
  }

  ghost predicate DraftOk(s: State, id: DraftId)
    requires id in s.server.drafts
  {
    var d := s.server.drafts[id];
    && d.revisions == Newest(History(s.saves, id))
    && (LastContent(s.saves, id).Some? ==> d.content == LastContent(s.saves, id).value)
  }

  ghost predicate ServerInv(s: State) {
    && IdsUsed(s.server)
    && SavesOk(s)
    && (forall id | id in s.server.drafts :: DraftOk(s, id))
    && (forall i | i in s.accepted && i in s.queued && s.queued[i].dto.content.Some? :: SavedBy(s, i))
  }

  ghost predicate SavedBy(s: State, i: ItemId) {
    exists k :: 0 <= k < |s.saves| && s.saves[k].item == Some(i)
  }

  ghost predicate Inv(s: State) {
    ClientInv(s) && ServerInv(s)
  }
}
