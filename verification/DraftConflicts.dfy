/**
  False conflicts: when an edit that the server accepted is nevertheless
  reported to the user as conflicting.
 */
module DraftConflicts {
  import opened Options
  import opened Drafts
  import opened DraftSync
  import opened DraftSyncTheorems

  // ---- Edits of versions that were there -----------------------------------

  /** The base version is one that the draft has had: the client sends the last version it saw. */
  ghost predicate Seen(server: Server, edit: Edit) {
    edit.dto.version.Some? ==>
      && edit.draft < server.nextId
      && (edit.draft in server.drafts ==> edit.dto.version.value <= server.drafts[edit.draft].version)
  }

  /** In every step of the run that queues an edit, the edit is of a version that was there. */
  ghost predicate OfSeenVersions(s: State, trace: seq<Event>)
    decreases |trace|
  {
    trace == [] ||
    ((trace[0].Queue? ==> Seen(s.server, trace[0].edit)) && OfSeenVersions(Step(s, trace[0]), trace[1..]))
  }

  predicate Versioned(edit: Edit) {
    edit.dto.content.Some? && edit.dto.version.Some?
  }

  /** The edit's base version is behind the draft, or the draft is no more. */
  ghost predicate Overtaken(server: Server, edit: Edit) {
    && edit.draft < server.nextId
    && (edit.draft in server.drafts && edit.dto.version.Some? ==>
          edit.dto.version.value < server.drafts[edit.draft].version)
  }

  ghost predicate OwnerOf(server: Server, edit: Edit) {
    edit.draft in server.drafts ==> server.drafts[edit.draft].userId == edit.user
  }

  /** No request brings a version or an id back, or hands a draft to another user. */
  lemma ServeMovesOn(s: Server, user: UserId, r: Request, edit: Edit)
    requires IdsUsed(s)
    ensures var t := Serve(s, user, r).0;
            && (Seen(s, edit) ==> Seen(t, edit))
            && (Overtaken(s, edit) ==> Overtaken(t, edit))
            && (Overtaken(s, edit) && OwnerOf(s, edit) ==> OwnerOf(t, edit))
  {
    ServeKeeps(s, user, r);
  }

  // ---- What is known of every answer ---------------------------------------

  /**
    An answer to an edit that had been accepted before is a conflict, or the
    refusal of a published draft.  A conflict told to one that had not been
    accepted means that it never will be.
   */
  ghost predicate Understood(s: State, h: Handled) {
    h.item in s.queued && Versioned(s.queued[h.item]) ==>
      && (h.late ==> h.item in s.accepted && (IsConflict(h.answer) || h.answer.BadRequest?))
      && (!h.late && IsConflict(h.answer) ==> h.item !in s.accepted && Overtaken(s.server, s.queued[h.item]))
  }

  ghost predicate AcceptedOk(s: State, i: ItemId)
    requires i in s.queued
  {
    Versioned(s.queued[i]) ==> Overtaken(s.server, s.queued[i]) && OwnerOf(s.server, s.queued[i])
  }

  ghost predicate AnswersOk(s: State, worker: Worker) {
    worker.Answered? && worker.todo != [] ==> Understood(s, Handled(worker.todo[0].id, worker.answer, worker.late))
  }

  ghost predicate RecordedFor(s: State, i: ItemId) {
    exists c :: c in s.recordedFor && s.recordedFor[c] == i
  }

  ghost predicate ToldConflict(s: State, i: ItemId) {
    exists h :: h in s.handled && h.item == i && IsConflict(h.answer)
  }

  ghost predicate Tracked(s: State) {
    && Inv(s)
    && (forall i | i in s.queued :: Seen(s.server, s.queued[i]))
    && (forall i | i in s.accepted :: i in s.queued && AcceptedOk(s, i))
    && (forall h | h in s.handled :: h.item in s.queued && Understood(s, h))
    && (forall w | w in s.workers :: AnswersOk(s, s.workers[w]))
  }

  /** The number of a conflict record tells whose it is. */
  ghost predicate RecordsOk(s: State) {
    && (forall c | c in s.recordedFor :: c < s.nextConflict)
    && (forall i :: RecordedFor(s, i) <==> ToldConflict(s, i))
  }

  /** Nothing accepted, answered or queued has changed, and the server has only moved on. */
  ghost predicate Onward(s: State, t: State) {
    && s.queued == t.queued && s.accepted == t.accepted
    && (forall i | i in s.queued ::
          var edit := s.queued[i];
          && Seen(t.server, edit)
          && (Overtaken(s.server, edit) ==> Overtaken(t.server, edit))
          && (Overtaken(s.server, edit) && OwnerOf(s.server, edit) ==> OwnerOf(t.server, edit)))
  }

  lemma OnwardKeeps(s: State, t: State)
    requires Tracked(s) && Onward(s, t) && Inv(t) && t.handled == s.handled && t.workers == s.workers
    ensures Tracked(t)
  {
    forall w | w in t.workers ensures AnswersOk(t, t.workers[w]) {
      assert AnswersOk(s, s.workers[w]);
      assert WorkerOk(s, s.workers[w]);
    }
    forall i | i in t.accepted ensures AcceptedOk(t, i) { assert AcceptedOk(s, i); }
    forall h | h in t.handled ensures Understood(t, h) { assert Understood(s, h); }
  }

  lemma BecomeTracked(s: State, w: WorkerId, worker: Worker)
    requires Tracked(s) && WorkerOk(s, worker) && AnswersOk(s, worker)
    ensures Tracked(Become(s, w, worker))
  {
    var t := Become(s, w, worker);
    BecomeKeeps(s, w, worker);
    forall v | v in t.workers ensures AnswersOk(t, t.workers[v]) {
      if v != w { assert AnswersOk(s, s.workers[v]) && WorkerOk(s, s.workers[v]); }
    }
    forall i | i in t.accepted ensures AcceptedOk(t, i) { assert AcceptedOk(s, i); }
    forall h | h in t.handled ensures Understood(t, h) { assert Understood(s, h); }
  }

  // ---- Sending -------------------------------------------------------------

  lemma AnswerIsUnderstood(s: State, item: Item)
    requires Tracked(s) && item.id in s.queued && s.queued[item.id] == item.edit
    ensures var (t, a) := TakeIn(s, item); Understood(t, Handled(item.id, a, item.id in s.accepted))
  {
    var (t, a) := TakeIn(s, item);
    ServeMovesOn(s.server, item.edit.user, Change(item.edit.draft, item.edit.dto), item.edit);
    assert Seen(s.server, item.edit);
    if item.id in s.accepted { assert AcceptedOk(s, item.id); }
  }

  lemma SaveOvertakes(s: State, item: Item)
    requires Tracked(s) && item.id in s.queued && s.queued[item.id] == item.edit
    requires TakeIn(s, item).1.Saved?
    ensures var (t, a) := TakeIn(s, item); AcceptedOk(t, item.id)
    ensures Versioned(item.edit) ==> !Overtaken(s.server, item.edit)
  {
    ServeKeeps(s.server, item.edit.user, Change(item.edit.draft, item.edit.dto));
  }

  lemma TakeInTracked(s: State, item: Item)
    requires Tracked(s) && item.id in s.queued && s.queued[item.id] == item.edit
    ensures Tracked(TakeIn(s, item).0)
  {
    var (t, a) := TakeIn(s, item);
    TakeInKeeps(s, item);
    forall i | i in s.queued
      ensures Seen(t.server, s.queued[i])
      ensures Overtaken(s.server, s.queued[i]) ==> Overtaken(t.server, s.queued[i])
      ensures Overtaken(s.server, s.queued[i]) && OwnerOf(s.server, s.queued[i]) ==> OwnerOf(t.server, s.queued[i])
    {
      ServeMovesOn(s.server, item.edit.user, Change(item.edit.draft, item.edit.dto), s.queued[i]);
    }
    if a.Saved? { SaveOvertakes(s, item); }
    forall i | i in t.accepted ensures AcceptedOk(t, i) {
      if i in s.accepted { assert AcceptedOk(s, i); }
    }
    forall h | h in t.handled ensures Understood(t, h) { assert Understood(s, h); }
    forall w | w in t.workers ensures AnswersOk(t, t.workers[w]) {
      assert AnswersOk(s, s.workers[w]) && WorkerOk(s, s.workers[w]);
    }
  }

  lemma SendTracked(s: State, w: WorkerId, todo: seq<Item>, delivery: Delivery)
    requires Tracked(s) && todo != [] && Known(s, todo)
    ensures Tracked(Send(s, w, todo, delivery))
  {
    if delivery.Fails? {
      BecomeTracked(s, w, Sending(todo[1..]));
    } else {
      assert todo[0] in todo;
      TakeInKeeps(s, todo[0]);
      TakeInTracked(s, todo[0]);
      AnswerIsUnderstood(s, todo[0]);
      var (t, a) := TakeIn(s, todo[0]);
      BecomeTracked(t, w, if delivery.Arrives? then Answered(todo, a, todo[0].id in s.accepted) else Sending(todo[1..]));
    }
  }

  // ---- Acting on an answer -------------------------------------------------

  lemma NoteTracked(s: State, todo: seq<Item>, a: Answer, late: bool)
    requires Tracked(s) && todo != [] && Known(s, todo) && Understood(s, Handled(todo[0].id, a, late))
    ensures Tracked(Note(s, todo, a, late))
  {
    var t := Note(s, todo, a, late);
    NoteKeeps(s, todo, a, late);
    assert todo[0] in todo;
    OnwardKeeps(s, t.(handled := s.handled)) by { assert t.(handled := s.handled) == s; }
    forall h | h in t.handled ensures Understood(t, h) {
      if h in s.handled { assert Understood(s, h); }
    }
    forall w | w in t.workers ensures AnswersOk(t, t.workers[w]) { assert AnswersOk(s, s.workers[w]); }
    forall i | i in t.accepted ensures AcceptedOk(t, i) { assert AcceptedOk(s, i); }
  }

  lemma ForgetTracked(s: State, w: WorkerId, todo: seq<Item>)
    requires Tracked(s) && todo != [] && Known(s, todo)
    requires todo[0].id in s.accepted || Kept(s, todo[0].edit)
    ensures Tracked(Forget(s, w, todo))
  {
    ForgetKeeps(s, w, todo);
    BecomeTracked(s, w, Sending(todo[1..]));
    OnwardKeeps(Become(s, w, Sending(todo[1..])), Forget(s, w, todo));
  }

  lemma RecordTracked(s: State, w: WorkerId, todo: seq<Item>, a: Answer)
    requires Tracked(s) && todo != [] && Known(s, todo) && IsConflict(a)
    ensures Tracked(Record(s, w, todo, a))
  {
    RecordKeeps(s, w, todo, a);
    var c := ConflictOf(todo[0].edit, a);
    var t := Store(s, c, todo[0].id);
    StoreKeeps(s, c, todo[0].id);
    OnwardKeeps(s, t);
    assert Kept(t, todo[0].edit) by { assert Tells(t.conflicts[s.nextConflict], todo[0].edit); }
    BecomeTracked(t, w, Recorded(todo));
  }

  lemma AnsweredTracked(s: State, w: WorkerId, todo: seq<Item>, a: Answer, late: bool)
    requires Tracked(s) && w in s.workers && s.workers[w] == Answered(todo, a, late)
    ensures Tracked(WorkerStep(s, w, Arrives))
  {
    assert WorkerOk(s, s.workers[w]) && AnswersOk(s, s.workers[w]);
    NoteTracked(s, todo, a, late);
    var t := Note(s, todo, a, late);
    if IsConflict(a) { RecordTracked(t, w, todo, a); }
    else if a.Saved? { ForgetTracked(t, w, todo); }
    else { BecomeTracked(t, w, Sending(todo[1..])); }
  }

  lemma ActTracked(s: State, w: WorkerId, delivery: Delivery)
    requires Tracked(s) && w in s.workers
    ensures Tracked(WorkerStep(s, w, delivery))
  {
    assert WorkerOk(s, s.workers[w]);
    match s.workers[w]
    case Idle =>
    case Sending(todo) => if todo == [] { BecomeTracked(s, w, Idle); } else { SendTracked(s, w, todo, delivery); }
    case Answered(todo, a, late) => AnsweredTracked(s, w, todo, a, late);
    case Recorded(todo) => ForgetTracked(s, w, todo);
  }

  // ---- The other steps -----------------------------------------------------

  lemma QueueTracked(s: State, edit: Edit)
    requires Tracked(s) && Seen(s.server, edit)
    ensures Tracked(Step(s, Queue(edit)))
  {
    var t := Step(s, Queue(edit));
    StepKeeps(s, Queue(edit));
    assert s.nextItem !in s.queued;
    forall h | h in t.handled ensures Understood(t, h) { assert Understood(s, h); }
    forall w | w in t.workers ensures AnswersOk(t, t.workers[w]) {
      assert AnswersOk(s, s.workers[w]) && WorkerOk(s, s.workers[w]);
    }
    forall i | i in t.accepted ensures AcceptedOk(t, i) { assert AcceptedOk(s, i); }
  }

  lemma ElsewhereTracked(s: State, user: UserId, r: Request)
    requires Tracked(s)
    ensures Tracked(Step(s, Elsewhere(user, r)))
  {
    ElsewhereKeeps(s, user, r);
    forall i | i in s.queued
      ensures var t, edit := Step(s, Elsewhere(user, r)), s.queued[i];
              && Seen(t.server, edit)
              && (Overtaken(s.server, edit) ==> Overtaken(t.server, edit))
              && (Overtaken(s.server, edit) && OwnerOf(s.server, edit) ==> OwnerOf(t.server, edit))
    {
      ServeMovesOn(s.server, user, r, s.queued[i]);
    }
    OnwardKeeps(s, Step(s, Elsewhere(user, r)));
  }

  lemma StepTracked(s: State, e: Event)
    requires Tracked(s) && (e.Queue? ==> Seen(s.server, e.edit))
    ensures Tracked(Step(s, e))
  {
    match e
    case Queue(edit) => QueueTracked(s, edit);
    case Start(w) =>
      SnapshotIsPending(s.pending, s.nextItem);
      if w !in s.workers || s.workers[w].Idle? { BecomeTracked(s, w, Sending(Snapshot(s.pending, s.nextItem))); }
    case Act(w, delivery) => if w in s.workers { ActTracked(s, w, delivery); }
    case Stop(w) => BecomeTracked(s, w, Idle);
    case Dismiss(c) => if c in s.conflicts { DismissKeeps(s, c); OnwardKeeps(s, Step(s, e)); }
    case Elsewhere(user, r) => ElsewhereTracked(s, user, r);
    case Elapse(ms) => ElapseKeeps(s, ms); OnwardKeeps(s, Step(s, e));
  }

  lemma {:induction false} RunTracked(s: State, trace: seq<Event>)
    requires Tracked(s) && OfSeenVersions(s, trace)
    ensures Tracked(Run(s, trace))
    decreases |trace|
  {
    if trace != [] {
      StepTracked(s, trace[0]);
      RunTracked(Step(s, trace[0]), trace[1..]);
    }
  }

  // ---- Records -------------------------------------------------------------

  lemma RecordAdds(s: State, t: State, todo: seq<Item>, a: Answer, late: bool, w: WorkerId)
    requires RecordsOk(s) && todo != [] && IsConflict(a) && t == Record(Note(s, todo, a, late), w, todo, a)
    ensures RecordsOk(t)
  {
    var told, h := todo[0].id, Handled(todo[0].id, a, late);
    assert t.recordedFor[s.nextConflict] == told && h in t.handled;
    forall i ensures RecordedFor(t, i) <==> ToldConflict(t, i) {
      if i != told {
        assert RecordedFor(s, i) <==> ToldConflict(s, i);
        if c :| c in s.recordedFor && s.recordedFor[c] == i { assert t.recordedFor[c] == i; }
        if h' :| h' in s.handled && h'.item == i && IsConflict(h'.answer) { assert h' in t.handled; }
      } else {
        assert RecordedFor(t, i);
        assert ToldConflict(t, i);
      }
    }
  }

  lemma NoteAddsNoConflict(s: State, t: State, h: Handled)
    requires RecordsOk(s) && !IsConflict(h.answer)
    requires t.handled == s.handled + {h} && t.recordedFor == s.recordedFor && t.nextConflict == s.nextConflict
    ensures RecordsOk(t)
  {
    forall i ensures RecordedFor(t, i) <==> ToldConflict(t, i) {
      assert RecordedFor(s, i) <==> ToldConflict(s, i);
      if k :| k in s.handled && k.item == i && IsConflict(k.answer) { assert k in t.handled; }
    }
  }

  lemma SameRecords(s: State, t: State)
    requires RecordsOk(s) && t.handled == s.handled && t.recordedFor == s.recordedFor && t.nextConflict == s.nextConflict
    ensures RecordsOk(t)
  {
    forall i ensures RecordedFor(t, i) <==> ToldConflict(t, i) { assert RecordedFor(s, i) <==> ToldConflict(s, i); }
  }

  lemma SendLeavesRecords(s: State, w: WorkerId, todo: seq<Item>, delivery: Delivery)
    requires todo != []
    ensures var t := Send(s, w, todo, delivery);
            && t.handled == s.handled && t.recordedFor == s.recordedFor && t.nextConflict == s.nextConflict
            && t.conflicts == s.conflicts && t.queued == s.queued
  {
  }

  lemma AnswerKeepsRecords(s: State, w: WorkerId, todo: seq<Item>, a: Answer, late: bool)
    requires RecordsOk(s) && w in s.workers && s.workers[w] == Answered(todo, a, late) && todo != []
    ensures RecordsOk(WorkerStep(s, w, Arrives))
  {
    var t := WorkerStep(s, w, Arrives);
    if IsConflict(a) { RecordAdds(s, t, todo, a, late, w); }
    else { NoteAddsNoConflict(s, t, Handled(todo[0].id, a, late)); }
  }

  lemma ActKeepsRecords(s: State, w: WorkerId, delivery: Delivery)
    requires RecordsOk(s) && w in s.workers
    ensures RecordsOk(WorkerStep(s, w, delivery))
  {
    var t := WorkerStep(s, w, delivery);
    match s.workers[w]
    case Idle =>
    case Sending(todo) => if todo != [] { SendLeavesRecords(s, w, todo, delivery); } SameRecords(s, t);
    case Answered(todo, a, late) => if todo != [] { AnswerKeepsRecords(s, w, todo, a, late); }
    case Recorded(todo) => SameRecords(s, t);
  }

  lemma StepKeepsRecords(s: State, e: Event)
    requires RecordsOk(s)
    ensures RecordsOk(Step(s, e))
  {
    match e
    case Act(w, delivery) => if w in s.workers { ActKeepsRecords(s, w, delivery); }
    case _ => SameRecords(s, Step(s, e));
  }

  lemma {:induction false} RunKeepsRecords(s: State, trace: seq<Event>)
    requires RecordsOk(s)
    ensures RecordsOk(Run(s, trace))
    decreases |trace|
  {
    if trace != [] {
      StepKeepsRecords(s, trace[0]);
      RunKeepsRecords(Step(s, trace[0]), trace[1..]);
    }
  }

  // ---- Main results --------------------------------------------------------

  /**
    An accepted edit with content and a base version is reported as a conflict
    if and only if it was sent again after it had been accepted, and a worker
    acted on the answer to that, which was not the refusal of a draft published
    in the meantime.
   */
  lemma FalseConflictIff(s: State, trace: seq<Event>, i: ItemId)
    requires Initial(s) && OfSeenVersions(s, trace)
    requires i in Run(s, trace).accepted && i in Run(s, trace).queued && Versioned(Run(s, trace).queued[i])
    ensures var t := Run(s, trace);
            RecordedFor(t, i) <==> exists h :: h in t.handled && h.item == i && h.late && !h.answer.BadRequest?
  {
    var t := Run(s, trace);
    assert Inv(s);
    RunTracked(s, trace);
    RunKeepsRecords(s, trace);
    assert RecordedFor(t, i) <==> ToldConflict(t, i);
    forall h | h in t.handled && h.item == i ensures h.late && !h.answer.BadRequest? <==> IsConflict(h.answer) {
      assert Understood(t, h);
    }
  }

  // ---- One worker that is left alone ---------------------------------------

  /** One worker alone replays the queue; it is never stopped, and no reply to it is lost. */
  predicate Undisturbed(trace: seq<Event>, w: WorkerId) {
    forall e | e in trace :: Harmless(e, w)
  }

  predicate Harmless(e: Event, w: WorkerId) {
    match e
    case Start(v) => v == w
    case Act(v, delivery) => v == w && delivery != ReplyLost
    case Stop(_) => false
    case _ => true
  }

  ghost predicate Ascending(todo: seq<Item>, bound: ItemId) {
    && (forall i | 0 <= i < |todo| :: todo[i].id < bound)
    && (forall i, j | 0 <= i < j < |todo| :: todo[i].id < todo[j].id)
  }

  ghost predicate InQueue(s: State, todo: seq<Item>) {
    (forall item | item in todo :: item.id in s.pending) && Ascending(todo, s.nextItem)
  }

  /** What is accepted has left the queue, but for the item whose answer the worker holds. */
  ghost predicate Settled(s: State, worker: Worker) {
    match worker
    case Answered(todo, a, late) =>
      todo != [] && InQueue(s, todo) && !late
      && forall i | i in s.accepted && i in s.pending :: i == todo[0].id && a.Saved?
    case Idle => s.accepted !! s.pending.Keys
    case Sending(todo) => InQueue(s, todo) && s.accepted !! s.pending.Keys
    case Recorded(todo) => InQueue(s, todo) && s.accepted !! s.pending.Keys
  }

  ghost predicate Calm(s: State, w: WorkerId) {
    && s.workers.Keys <= {w}
    && Settled(s, if w in s.workers then s.workers[w] else Idle)
    && forall h | h in s.handled :: !h.late
  }

  lemma {:induction false} SnapshotAscends(pending: map<ItemId, Edit>, bound: ItemId)
    ensures Ascending(Snapshot(pending, bound), bound)
  {
    if bound > 0 {
      SnapshotAscends(pending, bound - 1);
      AscendsByOne(Snapshot(pending, bound - 1), bound - 1);
    }
  }

  lemma AscendsByOne(rest: seq<Item>, bound: ItemId)
    requires Ascending(rest, bound)
    ensures Ascending(rest, bound + 1) && forall edit :: Ascending(rest + [Item(bound, edit)], bound + 1)
  {
  }

  lemma CalmForget(s: State, w: WorkerId, todo: seq<Item>)
    requires s.workers.Keys <= {w} && todo != [] && InQueue(s, todo)
    requires forall h | h in s.handled :: !h.late
    requires forall i | i in s.accepted && i in s.pending :: i == todo[0].id
    ensures Calm(Forget(s, w, todo), w)
  {
    var t := Forget(s, w, todo);
    forall item | item in todo[1..] ensures item.id in t.pending {
      var k :| 0 <= k < |todo| - 1 && todo[1..][k] == item;
      assert todo[k + 1] == item;
    }
  }

  lemma CalmSend(s: State, w: WorkerId, todo: seq<Item>, delivery: Delivery)
    requires Calm(s, w) && w in s.workers && s.workers[w] == Sending(todo) && todo != [] && delivery != ReplyLost
    ensures Calm(Send(s, w, todo, delivery), w)
  {
    assert todo[0] in todo;
    assert InQueue(s, todo[1..]);
  }

  lemma CalmAnswered(s: State, w: WorkerId, todo: seq<Item>, a: Answer)
    requires Calm(s, w) && w in s.workers && s.workers[w] == Answered(todo, a, false)
    ensures Calm(WorkerStep(s, w, Arrives), w)
  {
    var t := Note(s, todo, a, false);
    if a.Saved? { CalmForget(t, w, todo); }
    else { assert InQueue(s, todo[1..]); }
  }

  lemma CalmAct(s: State, w: WorkerId, delivery: Delivery)
    requires Calm(s, w) && w in s.workers && delivery != ReplyLost
    ensures Calm(WorkerStep(s, w, delivery), w)
  {
    match s.workers[w]
    case Idle =>
    case Sending(todo) => if todo != [] { CalmSend(s, w, todo, delivery); }
    case Answered(todo, a, late) => CalmAnswered(s, w, todo, a);
    case Recorded(todo) => if todo != [] { CalmForget(s, w, todo); }
  }

  lemma CalmStep(s: State, e: Event, w: WorkerId)
    requires Inv(s) && Calm(s, w) && Harmless(e, w)
    ensures Calm(Step(s, e), w)
  {
    match e
    case Act(_, delivery) => if w in s.workers { CalmAct(s, w, delivery); }
    case Start(_) => SnapshotAscends(s.pending, s.nextItem); SnapshotIsPending(s.pending, s.nextItem);
    case Queue(edit) =>
    case _ =>
  }

  lemma {:induction false} RunStaysCalm(s: State, trace: seq<Event>, w: WorkerId)
    requires Inv(s) && Calm(s, w) && Undisturbed(trace, w)
    ensures Calm(Run(s, trace), w)
    decreases |trace|
  {
    if trace != [] {
      StepKeeps(s, trace[0]);
      CalmStep(s, trace[0], w);
      RunStaysCalm(Step(s, trace[0]), trace[1..], w);
    }
  }

  /** So with one worker that is neither stopped nor robbed of a reply, no accepted edit is ever reported as conflicting. */
  lemma UndisturbedHasNoFalseConflict(s: State, trace: seq<Event>, w: WorkerId, i: ItemId)
    requires Initial(s) && OfSeenVersions(s, trace) && Undisturbed(trace, w)
    requires i in Run(s, trace).accepted && i in Run(s, trace).queued && Versioned(Run(s, trace).queued[i])
    ensures !RecordedFor(Run(s, trace), i)
  {
    RunStaysCalm(s, trace, w);
    FalseConflictIff(s, trace, i);
  }

  // ---- What a record keeps of its edit -------------------------------------

  /** Every record in the store carries its edit's draft, text and base version. */
  ghost predicate Attributed(s: State) {
    forall c | c in s.conflicts ::
      c in s.recordedFor && s.recordedFor[c] in s.queued && Tells(s.conflicts[c], s.queued[s.recordedFor[c]])
  }

  lemma RecordAttributes(s: State, w: WorkerId, todo: seq<Item>, a: Answer)
    requires ClientInv(s) && Attributed(s) && todo != [] && Known(s, todo) && IsConflict(a)
    ensures Attributed(Record(s, w, todo, a))
  {
    assert todo[0] in todo;
  }

  lemma AnsweredAttributes(s: State, w: WorkerId, todo: seq<Item>, a: Answer, late: bool)
    requires Inv(s) && Attributed(s) && todo != [] && Known(s, todo) && IsConflict(a)
    ensures Attributed(Record(Note(s, todo, a, late), w, todo, a))
  {
    NoteKeeps(s, todo, a, late);
    RecordAttributes(Note(s, todo, a, late), w, todo, a);
  }

  lemma ActAttributes(s: State, w: WorkerId, delivery: Delivery)
    requires Inv(s) && Attributed(s) && w in s.workers
    ensures Attributed(WorkerStep(s, w, delivery))
  {
    var worker := s.workers[w];
    assert WorkerOk(s, worker);
    if worker.Answered? && IsConflict(worker.answer) { AnsweredAttributes(s, w, worker.todo, worker.answer, worker.late); }
    else { RecordsStay(s, w, delivery); }
  }

  lemma RecordsStay(s: State, w: WorkerId, delivery: Delivery)
    requires Attributed(s) && w in s.workers && !(s.workers[w].Answered? && IsConflict(s.workers[w].answer))
    ensures Attributed(WorkerStep(s, w, delivery))
  {
    match s.workers[w]
    case Idle =>
    case Sending(todo) =>
      if todo == [] {
        Unrecorded(s, Become(s, w, Idle));
      } else {
        SendLeavesRecords(s, w, todo, delivery);
        Unrecorded(s, Send(s, w, todo, delivery));
      }
    case Recorded(todo) => Unrecorded(s, WorkerStep(s, w, delivery));
    case Answered(todo, a, late) =>
      if todo != [] {
        if a.Saved? { Unrecorded(s, Forget(Note(s, todo, a, late), w, todo)); }
        else { Unrecorded(s, Become(Note(s, todo, a, late), w, Sending(todo[1..]))); }
      }
  }

  lemma Unrecorded(s: State, t: State)
    requires Attributed(s) && t.conflicts == s.conflicts && t.recordedFor == s.recordedFor && t.queued == s.queued
    ensures Attributed(t)
  {
  }

  lemma {:induction false} RecordsAreAttributed(s: State, trace: seq<Event>)
    requires Inv(s) && Attributed(s)
    ensures Attributed(Run(s, trace))
    decreases |trace|
  {
    if trace != [] {
      var e := trace[0];
      assert Attributed(Step(s, e)) by {
        match e
        case Act(w, delivery) => if w in s.workers { ActAttributes(s, w, delivery); }
        case _ =>
      }
      StepKeeps(s, e);
      RecordsAreAttributed(Step(s, e), trace[1..]);
    }
  }

  /** The edit that the user's session can queue again from a conflict record. */
  function Rebuilt(user: UserId, c: Conflict): Edit {
    Edit(user, c.draft, Update(c.localBody, None, c.baseVersion))
  }

  ghost predicate KeptWhole(s: State, edit: Edit) {
    (exists c :: c in s.conflicts && Rebuilt(edit.user, s.conflicts[c]) == edit)
    || (exists c :: c in s.dismissed && Rebuilt(edit.user, c) == edit)
  }

  /**
    An edit that has left the queue without being accepted is kept whole in a
    conflict record exactly when it carries no category.
   */
  lemma KeptWholeIff(s: State, trace: seq<Event>, i: ItemId)
    requires Initial(s) && i in Run(s, trace).queued
    requires i !in Run(s, trace).pending && i !in Run(s, trace).accepted
    ensures var t := Run(s, trace);
            KeptWhole(t, t.queued[i]) <==> t.queued[i].dto.category.None?
  {
    var t := Run(s, trace);
    NoEditIsLost(s, trace, i);
    var edit := t.queued[i];
    if edit.dto.category.None? {
      if c :| c in t.conflicts && Tells(t.conflicts[c], edit) {
        assert Rebuilt(edit.user, t.conflicts[c]) == edit;
      } else {
        var c :| c in t.dismissed && Tells(c, edit);
        assert Rebuilt(edit.user, c) == edit;
      }
    }
  }
}
