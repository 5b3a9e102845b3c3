/**
  What draft sync keeps over every run: no queued edit is lost, no version of a
  draft is edited twice, and nothing is overwritten unseen.
 */
module DraftSyncTheorems {
  import opened Options
  import opened Drafts
  import opened DraftSync

  // ---- The log of saves ----------------------------------------------------

  lemma LogGrows(saves: seq<ContentSave>, n: ContentSave, id: DraftId)
    ensures History(saves + [n], id) == (if n.draft == id then [n.replaced] else []) + History(saves, id)
    ensures LastContent(saves + [n], id) == if n.draft == id then Some(n.content) else LastContent(saves, id)
  {
    assert (saves + [n])[..|saves|] == saves;
  }

  lemma {:induction false} NoHistory(saves: seq<ContentSave>, id: DraftId)
    requires forall i | 0 <= i < |saves| :: saves[i].draft != id
    ensures History(saves, id) == [] && LastContent(saves, id) == None
  {
    if saves != [] { NoHistory(saves[..|saves| - 1], id); }
  }

  lemma NewestOfNewest(r: Revision, rest: seq<Revision>)
    ensures Newest([r] + Newest(rest)) == Newest([r] + rest)
  {
  }

  ghost predicate Serves(s: State, t: State, user: UserId, r: Request, item: Option<ItemId>) {
    var (server, a) := Serve(s.server, user, r);
    && t.server == server
    && t.saves == Logged(s.saves, s.server, item, r, a)
    && t.queued == s.queued
    && t.accepted == (if item.Some? && a.Saved? then s.accepted + {item.value} else s.accepted)
    && (item.Some? ==>
          && item.value in s.queued
          && r == Change(s.queued[item.value].draft, s.queued[item.value].dto))
  }

  lemma QuietRequestKeeps(s: State, t: State, user: UserId, r: Request, item: Option<ItemId>)
    requires ServerInv(s) && Serves(s, t, user, r, item) && !SavesContent(r, Serve(s.server, user, r).1)
    ensures ServerInv(t)
  {
    ServeKeeps(s.server, user, r);
    assert t.saves == s.saves;
    forall i | 0 <= i < |t.saves| ensures SaveOk(t, t.saves[i]) { assert SaveOk(s, s.saves[i]); }
    forall i | 0 <= i < |t.saves| ensures LinkOk(t.saves, i) { assert LinkOk(s.saves, i); }
    forall id | id in t.server.drafts ensures DraftOk(t, id) {
      if id in s.server.drafts {
        assert DraftOk(s, id);
      } else {
        assert forall i | 0 <= i < |s.saves| :: SaveOk(s, s.saves[i]);
        NoHistory(s.saves, id);
      }
    }
    forall i | i in t.accepted && i in t.queued && t.queued[i].dto.content.Some? ensures SavedBy(t, i) {
      assert SavedBy(s, i);
    }
  }

  lemma NewSaveIsOk(s: State, t: State, user: UserId, r: Request, item: Option<ItemId>)
    requires ServerInv(s) && Serves(s, t, user, r, item) && SavesContent(r, Serve(s.server, user, r).1)
    ensures SavesOk(t)
  {
    ServeKeeps(s.server, user, r);
    var n := ContentSave(item, r.id, Replaced(s.server.drafts[r.id], s.server.now), r.dto.content.value);
    assert t.saves == s.saves + [n];
    forall i | 0 <= i < |t.saves| ensures SaveOk(t, t.saves[i]) {
      if i < |s.saves| { assert SaveOk(s, s.saves[i]); }
    }
    forall i, j | 0 <= i < j < |t.saves| && t.saves[i].draft == t.saves[j].draft
      ensures t.saves[i].replaced.version < t.saves[j].replaced.version
    {
      assert SaveOk(s, s.saves[i]);
    }
    forall i | 0 <= i < |t.saves| ensures LinkOk(t.saves, i) {
      if i < |s.saves| {
        assert LinkOk(s.saves, i) && t.saves[..i] == s.saves[..i];
      } else {
        assert t.saves[..i] == s.saves && DraftOk(s, r.id);
      }
    }
  }

  lemma SavedDraftIsOk(s: State, t: State, user: UserId, r: Request, item: Option<ItemId>, id: DraftId)
    requires ServerInv(s) && Serves(s, t, user, r, item) && SavesContent(r, Serve(s.server, user, r).1)
    requires id in t.server.drafts
    ensures DraftOk(t, id)
  {
    ServeKeeps(s.server, user, r);
    var n := ContentSave(item, r.id, Replaced(s.server.drafts[r.id], s.server.now), r.dto.content.value);
    assert DraftOk(s, id);
    LogGrows(s.saves, n, id);
    NewestOfNewest(n.replaced, History(s.saves, id));
  }

  lemma SavingRequestKeeps(s: State, t: State, user: UserId, r: Request, item: Option<ItemId>)
    requires ServerInv(s) && Serves(s, t, user, r, item) && SavesContent(r, Serve(s.server, user, r).1)
    ensures ServerInv(t)
  {
    NewSaveIsOk(s, t, user, r, item);
    ServeKeeps(s.server, user, r);
    forall id | id in t.server.drafts ensures DraftOk(t, id) { SavedDraftIsOk(s, t, user, r, item, id); }
    forall i | i in t.accepted && i in t.queued && t.queued[i].dto.content.Some? ensures SavedBy(t, i) {
      if item == Some(i) {
        assert t.saves[|s.saves|].item == Some(i);
      } else {
        assert SavedBy(s, i);
        var k :| 0 <= k < |s.saves| && s.saves[k].item == Some(i);
        assert t.saves[k] == s.saves[k];
      }
    }
  }

  lemma RequestKeeps(s: State, t: State, user: UserId, r: Request, item: Option<ItemId>)
    requires ServerInv(s) && Serves(s, t, user, r, item)
    ensures ServerInv(t)
  {
    if SavesContent(r, Serve(s.server, user, r).1) {
      SavingRequestKeeps(s, t, user, r, item);
    } else {
      QuietRequestKeeps(s, t, user, r, item);
    }
  }

  /** Steps that leave the server, the log and the accepted items alone. */
  lemma StoreStepKeepsServer(s: State, t: State)
    requires ServerInv(s)
    requires t.server == s.server.(now := t.server.now) && t.saves == s.saves && t.accepted == s.accepted
    requires forall i | i in s.queued :: i in t.queued && t.queued[i] == s.queued[i]
    requires t.accepted <= s.queued.Keys
    ensures ServerInv(t)
  {
    forall i | 0 <= i < |t.saves| ensures SaveOk(t, t.saves[i]) { assert SaveOk(s, s.saves[i]); }
    forall i | 0 <= i < |t.saves| ensures LinkOk(t.saves, i) { assert LinkOk(s.saves, i); }
    forall id | id in t.server.drafts ensures DraftOk(t, id) { assert DraftOk(s, id); }
    forall i | i in t.accepted && i in t.queued && t.queued[i].dto.content.Some? ensures SavedBy(t, i) {
      assert SavedBy(s, i);
    }
  }

  // ---- The client's stores -------------------------------------------------

  lemma {:induction false} SnapshotIsPending(pending: map<ItemId, Edit>, bound: ItemId)
    ensures forall item | item in Snapshot(pending, bound) :: item.id in pending && pending[item.id] == item.edit
    ensures forall i | i in pending && i < bound :: Item(i, pending[i]) in Snapshot(pending, bound)
  {
    if bound > 0 { SnapshotIsPending(pending, bound - 1); }
  }

  /** A step that loses nothing, and after which one worker stands elsewhere. */
  lemma ClientStepKeeps(s: State, t: State, w: WorkerId)
    requires ClientInv(s) && Grows(s, t)
    requires w in t.workers && WorkerOk(t, t.workers[w])
    requires t.workers.Keys <= s.workers.Keys + {w} && forall v | v in t.workers && v != w :: t.workers[v] == s.workers[v]
    requires forall i | i in t.pending :: i in t.queued && t.pending[i] == t.queued[i]
    requires forall i | i in t.queued :: i < t.nextItem && Accounted(t, i)
    requires forall c | c in t.conflicts :: c < t.nextConflict
    requires t.accepted <= t.queued.Keys
    ensures ClientInv(t)
  {
    forall v | v in t.workers ensures WorkerOk(t, t.workers[v]) {
      if v != w { GrowsKeepsWorkers(s, t, s.workers[v]); }
    }
  }

  lemma QueueKeeps(s: State, edit: Edit)
    requires ClientInv(s)
    ensures ClientInv(Step(s, Queue(edit)))
  {
    var t := Step(s, Queue(edit));
    forall w | w in t.workers ensures WorkerOk(t, t.workers[w]) { GrowsKeepsWorkers(s, t, s.workers[w]); }
    forall i | i in t.queued ensures Accounted(t, i) {
      if i != s.nextItem { assert Accounted(s, i); }
    }
  }

  lemma BecomeKeeps(s: State, w: WorkerId, worker: Worker)
    requires Inv(s) && WorkerOk(s, worker)
    ensures Inv(Become(s, w, worker))
  {
    var t := Become(s, w, worker);
    assert Grows(s, t) && WorkerOk(t, worker);
    forall i | i in t.queued ensures Accounted(t, i) { assert Accounted(s, i); }
    ClientStepKeeps(s, t, w);
    StoreStepKeepsServer(s, t);
  }

  lemma StartKeeps(s: State, w: WorkerId)
    requires Inv(s)
    ensures Inv(Step(s, Start(w)))
  {
    SnapshotIsPending(s.pending, s.nextItem);
    if w !in s.workers || s.workers[w].Idle? { BecomeKeeps(s, w, Sending(Snapshot(s.pending, s.nextItem))); }
  }

  lemma DismissKeeps(s: State, c: nat)
    requires Inv(s) && c in s.conflicts
    ensures Inv(Step(s, Dismiss(c)))
  {
    var t := Step(s, Dismiss(c));
    forall edit | Kept(s, edit) ensures Kept(t, edit) {
      if exists d :: d in s.conflicts && Tells(s.conflicts[d], edit) {
        var d :| d in s.conflicts && Tells(s.conflicts[d], edit);
        if d == c { assert t.dismissed[|s.dismissed|] == s.conflicts[c]; } else { assert d in t.conflicts; }
      } else {
        var k :| k in s.dismissed && Tells(k, edit);
        assert k in t.dismissed;
      }
    }
    assert Grows(s, t);
    forall w | w in t.workers ensures WorkerOk(t, t.workers[w]) { GrowsKeepsWorkers(s, t, s.workers[w]); }
    forall i | i in t.queued ensures Accounted(t, i) { assert Accounted(s, i); }
    StoreStepKeepsServer(s, t);
  }

  lemma ElsewhereKeeps(s: State, user: UserId, r: Request)
    requires Inv(s)
    ensures Inv(Step(s, Elsewhere(user, r)))
  {
    var t := Step(s, Elsewhere(user, r));
    RequestKeeps(s, t, user, r, None);
    forall w | w in t.workers ensures WorkerOk(t, t.workers[w]) { GrowsKeepsWorkers(s, t, s.workers[w]); }
    forall i | i in t.queued ensures Accounted(t, i) { assert Accounted(s, i); }
  }

  lemma ElapseKeeps(s: State, ms: nat)
    requires Inv(s)
    ensures Inv(Step(s, Elapse(ms)))
  {
    var t := Step(s, Elapse(ms));
    forall w | w in t.workers ensures WorkerOk(t, t.workers[w]) { GrowsKeepsWorkers(s, t, s.workers[w]); }
    forall i | i in t.queued ensures Accounted(t, i) { assert Accounted(s, i); }
    StoreStepKeepsServer(s, t);
  }

  lemma TakeInKeeps(s: State, item: Item)
    requires Inv(s) && item.id in s.queued && s.queued[item.id] == item.edit
    ensures var (t, a) := TakeIn(s, item); Inv(t) && Grows(s, t) && (a.Saved? ==> item.id in t.accepted)
  {
    var (t, a) := TakeIn(s, item);
    RequestKeeps(s, t, item.edit.user, Change(item.edit.draft, item.edit.dto), Some(item.id));
    assert Grows(s, t);
    forall w | w in t.workers ensures WorkerOk(t, t.workers[w]) { GrowsKeepsWorkers(s, t, s.workers[w]); }
    forall i | i in t.queued ensures Accounted(t, i) { assert Accounted(s, i); }
  }

  lemma SendKeeps(s: State, w: WorkerId, todo: seq<Item>, delivery: Delivery)
    requires Inv(s) && todo != [] && Known(s, todo)
    ensures Inv(Send(s, w, todo, delivery))
  {
    if delivery.Fails? {
      BecomeKeeps(s, w, Sending(todo[1..]));
    } else {
      assert todo[0] in todo;
      TakeInKeeps(s, todo[0]);
      var (t, a) := TakeIn(s, todo[0]);
      BecomeKeeps(t, w, if delivery.Arrives? then Answered(todo, a, todo[0].id in s.accepted) else Sending(todo[1..]));
    }
  }

  /** An item is dropped only after its edit was accepted or its conflict recorded. */
  lemma ForgetKeeps(s: State, w: WorkerId, todo: seq<Item>)
    requires Inv(s) && todo != [] && Known(s, todo)
    requires todo[0].id in s.accepted || Kept(s, todo[0].edit)
    ensures Inv(Forget(s, w, todo))
  {
    var t := s.(pending := s.pending - {todo[0].id});
    assert todo[0] in todo;
    assert Grows(s, t);
    forall v | v in t.workers ensures WorkerOk(t, t.workers[v]) { GrowsKeepsWorkers(s, t, s.workers[v]); }
    forall i | i in t.queued ensures Accounted(t, i) { assert Accounted(s, i); }
    StoreStepKeepsServer(s, t);
    BecomeKeeps(t, w, Sending(todo[1..]));
  }

  function Store(s: State, c: Conflict, i: ItemId): State {
    s.(conflicts := s.conflicts[s.nextConflict := c], recordedFor := s.recordedFor[s.nextConflict := i],
       nextConflict := s.nextConflict + 1)
  }

  lemma StoreGrows(s: State, c: Conflict, i: ItemId)
    requires ClientInv(s)
    ensures Grows(s, Store(s, c, i))
  {
    var t := Store(s, c, i);
    forall edit | Kept(s, edit) ensures Kept(t, edit) {
      if exists d :: d in s.conflicts && Tells(s.conflicts[d], edit) {
        var d :| d in s.conflicts && Tells(s.conflicts[d], edit);
        assert d in t.conflicts && t.conflicts[d] == s.conflicts[d];
      }
    }
  }

  lemma StoreKeeps(s: State, c: Conflict, item: ItemId)
    requires Inv(s)
    ensures Inv(Store(s, c, item))
  {
    var t := Store(s, c, item);
    StoreGrows(s, c, item);
    forall v | v in t.workers ensures WorkerOk(t, t.workers[v]) { GrowsKeepsWorkers(s, t, s.workers[v]); }
    forall i | i in t.queued ensures Accounted(t, i) { assert Accounted(s, i); }
    StoreStepKeepsServer(s, t);
  }

  lemma RecordKeeps(s: State, w: WorkerId, todo: seq<Item>, a: Answer)
    requires Inv(s) && todo != [] && Known(s, todo) && IsConflict(a)
    ensures Inv(Record(s, w, todo, a))
  {
    var c := ConflictOf(todo[0].edit, a);
    var t := Store(s, c, todo[0].id);
    StoreKeeps(s, c, todo[0].id);
    assert Kept(t, todo[0].edit) by { assert Tells(t.conflicts[s.nextConflict], todo[0].edit); }
    BecomeKeeps(t, w, Recorded(todo));
  }

  lemma NoteKeeps(s: State, todo: seq<Item>, a: Answer, late: bool)
    requires Inv(s) && todo != []
    ensures Inv(Note(s, todo, a, late))
  {
    var t := Note(s, todo, a, late);
    assert Grows(s, t);
    forall v | v in t.workers ensures WorkerOk(t, t.workers[v]) { GrowsKeepsWorkers(s, t, s.workers[v]); }
    forall i | i in t.queued ensures Accounted(t, i) { assert Accounted(s, i); }
    StoreStepKeepsServer(s, t);
  }

  lemma AnsweredKeeps(s: State, w: WorkerId, todo: seq<Item>, a: Answer, late: bool)
    requires Inv(s) && w in s.workers && s.workers[w] == Answered(todo, a, late)
    ensures Inv(WorkerStep(s, w, Arrives))
  {
    assert WorkerOk(s, s.workers[w]);
    NoteKeeps(s, todo, a, late);
    var t := Note(s, todo, a, late);
    if IsConflict(a) { RecordKeeps(t, w, todo, a); }
    else if a.Saved? { ForgetKeeps(t, w, todo); }
    else { BecomeKeeps(t, w, Sending(todo[1..])); }
  }

  lemma ActKeeps(s: State, w: WorkerId, delivery: Delivery)
    requires Inv(s) && w in s.workers
    ensures Inv(WorkerStep(s, w, delivery))
  {
    assert WorkerOk(s, s.workers[w]);
    match s.workers[w]
    case Idle =>
    case Sending(todo) => if todo == [] { BecomeKeeps(s, w, Idle); } else { SendKeeps(s, w, todo, delivery); }
    case Answered(todo, a, late) => AnsweredKeeps(s, w, todo, a, late);
    case Recorded(todo) => ForgetKeeps(s, w, todo);
  }

  lemma StepKeeps(s: State, e: Event)
    requires Inv(s)
    ensures Inv(Step(s, e))
  {
    match e
    case Queue(edit) => QueueKeeps(s, edit); StoreStepKeepsServer(s, Step(s, e));
    case Start(w) => StartKeeps(s, w);
    case Act(w, delivery) => if w in s.workers { ActKeeps(s, w, delivery); }
    case Stop(w) => BecomeKeeps(s, w, Idle);
    case Dismiss(c) => if c in s.conflicts { DismissKeeps(s, c); }
    case Elsewhere(user, r) => ElsewhereKeeps(s, user, r);
    case Elapse(ms) => ElapseKeeps(s, ms);
  }

  lemma {:induction false} RunKeeps(s: State, trace: seq<Event>)
    requires Inv(s)
    ensures Inv(Run(s, trace))
    decreases |trace|
  {
    if trace != [] {
      StepKeeps(s, trace[0]);
      RunKeeps(Step(s, trace[0]), trace[1..]);
    }
  }

  lemma ReachableInv(s: State, trace: seq<Event>)
    requires Initial(s)
    ensures Inv(Run(s, trace))
  {
    assert Inv(s);
    RunKeeps(s, trace);
  }

  // ---- Main results --------------------------------------------------------

  /**
    Nothing queued is lost: in every reachable state each edit is still pending,
    or the server accepted it, or its text and base version are in the conflict
    store (or were, until the user dismissed them).
   */
  lemma NoEditIsLost(s: State, trace: seq<Event>, i: ItemId)
    requires Initial(s) && i in Run(s, trace).queued
    ensures Accounted(Run(s, trace), i)
  {
    ReachableInv(s, trace);
  }

  /** The history of a draft is linear: no version is edited twice, by whomever, and later saves replace later versions. */
  lemma NoVersionIsEditedTwice(s: State, trace: seq<Event>, i: nat, j: nat)
    requires Initial(s)
    requires var saves := Run(s, trace).saves; i < j < |saves| && saves[i].draft == saves[j].draft
    ensures var saves := Run(s, trace).saves; saves[i].replaced.version < saves[j].replaced.version
  {
    ReachableInv(s, trace);
  }

  /**
    A queued edit with content and a base version is applied at most once, only
    to that version, and exactly when the server answered it with success.
   */
  lemma VersionedEditsApplyOnce(s: State, trace: seq<Event>, item: ItemId)
    requires Initial(s) && item in Run(s, trace).queued
    requires var dto := Run(s, trace).queued[item].dto; dto.content.Some? && dto.version.Some?
    ensures var t := Run(s, trace);
            && (item in t.accepted <==> SavedBy(t, item))
            && (forall i, j | 0 <= i < |t.saves| && 0 <= j < |t.saves| && t.saves[i].item == t.saves[j].item == Some(item) ::
                  i == j)
            && (forall i | 0 <= i < |t.saves| && t.saves[i].item == Some(item) ::
                  && t.saves[i].draft == t.queued[item].draft
                  && t.saves[i].content == t.queued[item].dto.content.value
                  && t.saves[i].replaced.version == t.queued[item].dto.version.value)
  {
    ReachableInv(s, trace);
    var t := Run(s, trace);
    assert forall i | 0 <= i < |t.saves| :: SaveOk(t, t.saves[i]);
  }

  /**
    Nothing is overwritten unseen: the revisions of a draft are the latest ten
    contents that its saves replaced, newest first, each of them the content
    that the save before had stored.
   */
  lemma RevisionsAreTheHistory(s: State, trace: seq<Event>, id: DraftId)
    requires Initial(s) && id in Run(s, trace).server.drafts
    ensures var t := Run(s, trace);
            && t.server.drafts[id].revisions == Newest(History(t.saves, id))
            && (LastContent(t.saves, id).Some? ==> t.server.drafts[id].content == LastContent(t.saves, id).value)
            && forall i | 0 <= i < |t.saves| :: LinkOk(t.saves, i)
  {
    ReachableInv(s, trace);
    assert DraftOk(Run(s, trace), id);
  }

  // ---- What the guarantees do not cover ------------------------------------

  /** An edit is queued, and worker 0 replays the queue until the edit's request has been dealt with. */
  function QueuedAndStarted(s: State, edit: Edit): State {
    Step(Step(s, Queue(edit)), Start(0))
  }

  lemma QueuedAlone(s: State, edit: Edit)
    requires Initial(s)
    ensures var t := QueuedAndStarted(s, edit);
            && t.workers == map[0 := Sending([Item(s.nextItem, edit)])]
            && t.pending == map[s.nextItem := edit] && t.server == s.server && t.saves == []
            && t.conflicts == map[] && t.nextItem == s.nextItem + 1 && t.accepted == {}
  {
    var pending := map[s.nextItem := edit];
    var b := Step(s, Queue(edit));
    assert b.pending == pending && b.workers == map[];
    NothingBelow(pending, s.nextItem);
    assert Snapshot(pending, s.nextItem + 1) == [] + [Item(s.nextItem, edit)];
    var t := Step(b, Start(0));
    assert Snapshot(b.pending, b.nextItem) == [Item(s.nextItem, edit)];
    assert 0 !in b.workers;
    assert t == Become(b, 0, Sending([Item(s.nextItem, edit)]));
    assert t.workers == map[0 := Sending([Item(s.nextItem, edit)])];
  }

  lemma {:induction false} NothingBelow(pending: map<ItemId, Edit>, bound: ItemId)
    requires forall i | i in pending :: i >= bound
    ensures Snapshot(pending, bound) == []
  {
    if bound > 0 { NothingBelow(pending, bound - 1); }
  }

  ghost predicate Editable(s: State, edit: Edit) {
    && edit.draft in s.server.drafts
    && s.server.drafts[edit.draft].userId == edit.user
    && s.server.drafts[edit.draft].status != Posted
  }

  /** Worker 0 sends its first item, the reply is lost, and the next replay starts. */
  function LostThenRestarted(s: State): State {
    Step(Step(Step(s, Act(0, ReplyLost)), Act(0, Fails)), Start(0))
  }

  lemma LostReply(s: State, edit: Edit)
    requires Initial(s) && Editable(s, edit) && edit.dto.content.Some?
    requires edit.dto.version.Some? ==> edit.dto.version.value == s.server.drafts[edit.draft].version
    ensures var d := s.server.drafts[edit.draft];
            var t := LostThenRestarted(QueuedAndStarted(s, edit));
            && t.workers == map[0 := Sending([Item(s.nextItem, edit)])]
            && t.pending == map[s.nextItem := edit] && t.conflicts == map[]
            && t.server == Put(s.server, edit.draft, Changed(d, edit.dto, s.server.now))
            && t.saves == [ContentSave(Some(s.nextItem), edit.draft, Replaced(d, s.server.now), edit.dto.content.value)]
            && t.accepted == {s.nextItem}
  {
    QueuedAlone(s, edit);
    var a := QueuedAndStarted(s, edit);
    var b := Step(a, Act(0, ReplyLost));
    assert b.workers[0] == Sending([]);
    var c := Step(b, Act(0, Fails));
    assert c.workers == map[0 := Idle];
    NothingBelow(c.pending, s.nextItem);
    assert Snapshot(c.pending, s.nextItem + 1) == [] + [Item(s.nextItem, edit)];
  }

  /** Without a base version, an edit whose reply was lost is applied a second time. */
  lemma UnversionedEditAppliesTwice(s: State, edit: Edit)
    requires Initial(s) && Editable(s, edit) && edit.dto.content.Some? && edit.dto.version.None?
    ensures var t := Step(LostThenRestarted(QueuedAndStarted(s, edit)), Act(0, Arrives));
            |t.saves| == 2 && t.saves[0].item == t.saves[1].item == Some(s.nextItem)
  {
    LostReply(s, edit);
  }

  /** With one, the second try is told of a conflict, with the edit's own text as the remote copy. */
  lemma AppliedEditConflictsWithItself(s: State, edit: Edit)
    requires Initial(s) && Editable(s, edit) && edit.dto.content.Some?
    requires edit.dto.version == Some(s.server.drafts[edit.draft].version)
    ensures var t := Step(Step(LostThenRestarted(QueuedAndStarted(s, edit)), Act(0, Arrives)), Act(0, Arrives));
            && s.nextItem in t.accepted && |t.saves| == 1
            && s.nextConflict in t.conflicts
            && var c := t.conflicts[s.nextConflict];
               && Tells(c, edit) && c.reason == Updated
               && c.remote.Some? && c.remote.value.content == edit.dto.content.value
  {
    LostReply(s, edit);
    var t := LostThenRestarted(QueuedAndStarted(s, edit));
    SecondTry(t, Item(s.nextItem, edit), t.server.drafts[edit.draft]);
  }

  /** A versioned edit meets a draft that has moved on. */
  lemma SecondTry(s: State, item: Item, d: Draft)
    requires s.workers == map[0 := Sending([item])] && item.edit.draft in s.server.drafts
    requires d == s.server.drafts[item.edit.draft] && d.userId == item.edit.user && d.status != Posted
    requires item.edit.dto.version.Some? && item.edit.dto.version.value != d.version
    ensures var t := Step(Step(s, Act(0, Arrives)), Act(0, Arrives));
            && t.accepted == s.accepted && t.saves == s.saves && t.nextConflict == s.nextConflict + 1
            && t.conflicts == s.conflicts[s.nextConflict := ConflictOf(item.edit, RemoteUpdated(d))]
  {
    var t := Step(s, Act(0, Arrives));
    assert t.workers[0] == Answered([item], RemoteUpdated(d), item.id in s.accepted);
  }

  function Recolored(edit: Edit, category: Option<string>): Edit {
    edit.(dto := edit.dto.(category := category))
  }

  /** Queued, sent, answered with a conflict, recorded, and dropped from the queue. */
  function Conflicted(s: State, edit: Edit): State {
    Step(Step(Step(QueuedAndStarted(s, edit), Act(0, Arrives)), Act(0, Arrives)), Act(0, Arrives))
  }

  /**
    The category of a conflicting edit is lost: what the client's stores hold
    afterwards is the same whatever the category was.
   */
  lemma CategoryIsLost(s: State, edit: Edit, category: Option<string>)
    requires Initial(s) && edit.dto.version.Some?
    requires edit.draft !in s.server.drafts || (Editable(s, edit) && s.server.drafts[edit.draft].version != edit.dto.version.value)
    ensures var t, u := Conflicted(s, edit), Conflicted(s, Recolored(edit, category));
            && t.pending == u.pending == map[]
            && t.conflicts == u.conflicts && s.nextConflict in t.conflicts
            && t.server == u.server == s.server
  {
    OneConflict(s, edit);
    OneConflict(s, Recolored(edit, category));
  }

  lemma OneConflict(s: State, edit: Edit)
    requires Initial(s) && edit.dto.version.Some?
    requires edit.draft !in s.server.drafts || (Editable(s, edit) && s.server.drafts[edit.draft].version != edit.dto.version.value)
    ensures var t := Conflicted(s, edit);
            var a := Serve(s.server, edit.user, Change(edit.draft, edit.dto)).1;
            && (a.RemoteDeleted? || a.RemoteUpdated?)
            && t.pending == map[] && t.server == s.server
            && t.conflicts == map[s.nextConflict := ConflictOf(edit, a)]
  {
    QueuedAlone(s, edit);
    var a := QueuedAndStarted(s, edit);
    var b := Step(a, Act(0, Arrives));
    assert b.workers[0].Answered?;
    var c := Step(b, Act(0, Arrives));
    assert c.workers[0].Recorded?;
  }
}
