/**
  `replaySyncQueue` of the service worker, and `ConfessionDraftService.updateDraft`
  that answers it, written as the imperative code they are.

  At every await of the worker others may run; what they do there is given in
  advance by `schedule`, and how each request fares by `deliveries`.
 */
module SyncWorker {
  import opened Options
  import opened Drafts
  import opened DraftSync

  /** The draft rows, behind one service. */
  class ConfessionDraftService {
    var drafts: Table
    var nextId: DraftId
    var now: nat

    ghost function Rows(): Server
      reads this
    {
      Server(drafts, nextId, now)
    }

    constructor (s: Server)
      ensures Rows() == s
    {
      drafts, nextId, now := s.drafts, s.nextId, s.now;
    }

    method UpdateDraft(user: UserId, id: DraftId, dto: Update) returns (a: Answer)
      modifies this`drafts
      ensures (Rows(), a) == Serve(old(Rows()), user, Change(id, dto))
    {
      if id !in drafts {
        if dto.version.Some? { return RemoteDeleted(id); }
        return NotFound;
      }
      var draft := drafts[id];
      if draft.userId != user { return Forbidden; }
      if draft.status == Posted { return BadRequest; }
      if dto.version.Some? && draft.version != dto.version.value { return RemoteUpdated(draft); }
      if dto.content.Some? {
        var revision := Revision(draft.content, draft.version, now);
        draft := draft.(revisions := Newest([revision] + draft.revisions), content := dto.content.value);
      }
      if dto.category.Some? {
        draft := draft.(category := OrNull(dto.category.value));
      }
      var saved := if dto.content.Some? then draft.(version := draft.version + 1) else Save(drafts[id], draft);
      drafts := drafts[id := saved];
      a := Saved(id, saved);
    }
  }

  ghost predicate LeavesAlone(batch: seq<Event>, w: WorkerId) {
    forall e | e in batch :: (e.Act? || e.Stop? || e.Start?) ==> e.w != w
  }

  lemma OthersStep(s: State, e: Event, w: WorkerId)
    requires w in s.workers && ((e.Act? || e.Stop? || e.Start?) ==> e.w != w)
    ensures var t := Step(s, e); w in t.workers && t.workers[w] == s.workers[w]
  {
    match e
    case Act(v, delivery) => if v in s.workers { OthersAct(s, v, delivery, w); }
    case _ =>
  }

  lemma OthersAct(s: State, v: WorkerId, delivery: Delivery, w: WorkerId)
    requires v in s.workers && w in s.workers && v != w
    ensures var t := WorkerStep(s, v, delivery); w in t.workers && t.workers[w] == s.workers[w]
  {
    match s.workers[v]
    case Idle =>
    case Sending(todo) => if todo != [] { OthersSend(s, v, todo, delivery, w); }
    case Answered(todo, a, late) => if todo != [] { OthersAnswered(s, v, todo, a, late, w); }
    case Recorded(todo) =>
  }

  lemma OthersSend(s: State, v: WorkerId, todo: seq<Item>, delivery: Delivery, w: WorkerId)
    requires todo != [] && w in s.workers && v != w
    ensures var t := Send(s, v, todo, delivery); w in t.workers && t.workers[w] == s.workers[w]
  {
  }

  lemma OthersAnswered(s: State, v: WorkerId, todo: seq<Item>, a: Answer, late: bool, w: WorkerId)
    requires v in s.workers && s.workers[v] == Answered(todo, a, late) && todo != [] && w in s.workers && v != w
    ensures var t := WorkerStep(s, v, Arrives); w in t.workers && t.workers[w] == s.workers[w]
  {
  }

  lemma {:induction false} OthersRun(s: State, batch: seq<Event>, w: WorkerId)
    requires w in s.workers && LeavesAlone(batch, w)
    ensures var t := Run(s, batch); w in t.workers && t.workers[w] == s.workers[w]
    decreases |batch|
  {
    if batch != [] {
      OthersStep(s, batch[0], w);
      OthersRun(Step(s, batch[0]), batch[1..], w);
    }
  }

  lemma {:induction false} RunConcat(s: State, a: seq<Event>, b: seq<Event>)
    ensures Run(s, a + b) == Run(Run(s, a), b)
    decreases |a|
  {
    if a == [] {
      assert a + b == b;
    } else {
      assert (a + b)[1..] == a[1..] + b;
      RunConcat(Step(s, a[0]), a[1..], b);
    }
  }

  lemma RunSnoc(s: State, trace: seq<Event>, e: Event)
    ensures Run(s, trace + [e]) == Step(Run(s, trace), e)
  {
    RunConcat(s, trace, [e]);
    assert Run(Run(s, trace), [e]) == Run(Step(Run(s, trace), e), []);
  }

  // ---- A pass that nothing disturbs ----------------------------------------

  /** The server and the browser's two stores. */
  datatype Stores = Stores(server: Server, pending: map<ItemId, Edit>, conflicts: map<nat, Conflict>, nextConflict: nat)

  function StoresOf(s: State): Stores {
    Stores(s.server, s.pending, s.conflicts, s.nextConflict)
  }

  /**
    What becomes of the items, one after the other: an accepted one leaves the
    queue, one that conflicts leaves it for the conflict store, and one that is
    refused for another reason stays.
   */
  function Replayed(s: Stores, items: seq<Item>): Stores
    decreases |items|
  {
    if items == [] then s
    else
      var Item(id, edit) := items[0];
      var (server, a) := Serve(s.server, edit.user, Change(edit.draft, edit.dto));
      var t :=
        match a
        case Saved(_, _) => Stores(server, s.pending - {id}, s.conflicts, s.nextConflict)
        case RemoteDeleted(_) =>
          var c := Conflict(edit.draft, Gone, edit.dto.version, edit.dto.content, None);
          Stores(server, s.pending - {id}, s.conflicts[s.nextConflict := c], s.nextConflict + 1)
        case RemoteUpdated(current) =>
          var c := Conflict(edit.draft, Updated, edit.dto.version, edit.dto.content, Some(current));
          Stores(server, s.pending - {id}, s.conflicts[s.nextConflict := c], s.nextConflict + 1)
        case _ => Stores(server, s.pending, s.conflicts, s.nextConflict);
      Replayed(t, items[1..])
  }

  /** One item, from its request to the last store write. */
  function ItemDone(s: State, w: WorkerId): State {
    var act := Act(w, Arrives);
    var t := Step(Step(s, act), act);
    if w in t.workers && t.workers[w].Recorded? then Step(t, act) else t
  }

  lemma SentItem(s: State, w: WorkerId, todo: seq<Item>, a: Answer)
    requires todo != [] && w in s.workers && s.workers[w] == Sending(todo)
    requires a == Serve(s.server, todo[0].edit.user, Change(todo[0].edit.draft, todo[0].edit.dto)).1
    ensures var t := Step(s, Act(w, Arrives));
            && StoresOf(t) == StoresOf(s).(
                 server := Serve(s.server, todo[0].edit.user, Change(todo[0].edit.draft, todo[0].edit.dto)).0)
            && w in t.workers && t.workers[w] == Answered(todo, a, todo[0].id in s.accepted)
  {
  }

  lemma AnsweredItem(s: State, w: WorkerId, todo: seq<Item>, a: Answer)
    requires todo != [] && w in s.workers && s.workers[w].Answered? && s.workers[w].todo == todo && s.workers[w].answer == a
    ensures var t := Step(s, Act(w, Arrives));
            && w in t.workers && t.server == s.server
            && (IsConflict(a) ==>
                  && t.workers[w] == Recorded(todo)
                  && StoresOf(t) == StoresOf(s).(conflicts := s.conflicts[s.nextConflict := ConflictOf(todo[0].edit, a)],
                                                 nextConflict := s.nextConflict + 1))
            && (!IsConflict(a) ==>
                  && t.workers[w] == Sending(todo[1..])
                  && StoresOf(t) == StoresOf(s).(pending := if a.Saved? then s.pending - {todo[0].id} else s.pending))
  {
  }

  lemma QuietItem(s: State, w: WorkerId, todo: seq<Item>)
    requires todo != [] && w in s.workers && s.workers[w] == Sending(todo)
    ensures Replayed(StoresOf(s), todo) == Replayed(StoresOf(ItemDone(s, w)), todo[1..])
  {
    var a := Serve(s.server, todo[0].edit.user, Change(todo[0].edit.draft, todo[0].edit.dto)).1;
    SentItem(s, w, todo, a);
    var t := Step(s, Act(w, Arrives));
    AnsweredItem(t, w, todo, a);
    if IsConflict(a) {
      assert StoresOf(ItemDone(s, w)).pending == s.pending - {todo[0].id};
    }
  }

  class ServiceWorker {
    const w: WorkerId
    var state: State
    var schedule: seq<seq<Event>>
    var deliveries: seq<Delivery>

    ghost predicate At(worker: Worker)
      reads this
    {
      && w in state.workers && state.workers[w] == worker
      && forall batch | batch in schedule :: LeavesAlone(batch, w)
    }

    /** Nobody interferes, and every request arrives and is answered. */
    ghost predicate Quiet()
      reads this
    {
      schedule == [] && deliveries == []
    }

    /** Gives the others the floor for one batch. */
    method Await() returns (ghost batch: seq<Event>)
      requires w in state.workers && At(state.workers[w])
      modifies this
      ensures w in state.workers && At(old(state.workers[w])) && deliveries == old(deliveries)
      ensures state == Run(old(state), batch) && LeavesAlone(batch, w)
      ensures old(Quiet()) ==> Quiet() && batch == []
    {
      batch := [];
      if schedule != [] {
        var events := schedule[0];
        schedule := schedule[1..];
        batch := events;
        ghost var start, rest := state, schedule;
        var i := 0;
        while i < |events|
          invariant 0 <= i <= |events| && schedule == rest && deliveries == old(deliveries)
          invariant state == Run(start, events[..i])
        {
          RunSnoc(start, events[..i], events[i]);
          assert events[..i + 1] == events[..i] + [events[i]];
          state := Step(state, events[i]);
          i := i + 1;
        }
        assert events[..|events|] == events;
        OthersRun(start, events, w);
      }
    }

    /** `fetch`: the answer, unless the request or its reply is lost. */
    method Fetch(todo: seq<Item>) returns (a: Option<Answer>, ghost trace: seq<Event>)
      requires todo != [] && At(Sending(todo))
      modifies this
      ensures state == Run(old(state), trace) && Stop(w) !in trace
      ensures w in state.workers && At(state.workers[w])
      ensures match a
              case None => state.workers[w] == Sending(todo[1..])
              case Some(answer) => state.workers[w].Answered? && state.workers[w].(late := false) == Answered(todo, answer, false)
      ensures trace != [] && trace[|trace| - 1] == Act(w, if old(deliveries) == [] then Arrives else old(deliveries)[0])
      ensures old(Quiet()) ==> Quiet() && trace == [Act(w, Arrives)] && a.Some?
    {
      trace := Await();
      var delivery := if deliveries == [] then Arrives else deliveries[0];
      if deliveries != [] { deliveries := deliveries[1..]; }
      ghost var before := state;
      RunSnoc(old(state), trace, Act(w, delivery));
      trace := trace + [Act(w, delivery)];
      if delivery.Fails? {
        state := state.(workers := state.workers[w := Sending(todo[1..])]);
        return None, trace;
      }
      var edit := todo[0].edit;
      var service := new ConfessionDraftService(state.server);
      a := None;
      var answer := service.UpdateDraft(edit.user, edit.draft, edit.dto);
      var late := todo[0].id in state.accepted;
      var saves := Logged(state.saves, state.server, Some(todo[0].id), Change(edit.draft, edit.dto), answer);
      state := state.(
        server := Server(service.drafts, service.nextId, service.now),
        accepted := if answer.Saved? then state.accepted + {todo[0].id} else state.accepted,
        saves := saves);
      if delivery.Arrives? {
        a := Some(answer);
        state := state.(workers := state.workers[w := Answered(todo, answer, late)]);
      } else {
        state := state.(workers := state.workers[w := Sending(todo[1..])]);
      }
      assert state == Step(before, Act(w, delivery));
    }

    /** One store write, or one look at the answer. */
    method Proceed(worker: Worker) returns (ghost trace: seq<Event>)
      requires At(worker) && (worker.Answered? || worker.Recorded?) && worker.todo != []
      modifies this
      ensures state == Run(old(state), trace) && Stop(w) !in trace
      ensures w in state.workers
      ensures At(if worker.Answered? && IsConflict(worker.answer)
                 then Recorded(worker.todo) else Sending(worker.todo[1..]))
      ensures old(Quiet()) ==> Quiet() && trace == [Act(w, Arrives)]
    {
      trace := Await();
      ghost var before := state;
      RunSnoc(old(state), trace, Act(w, Arrives));
      trace := trace + [Act(w, Arrives)];
      var item := worker.todo[0];
      if worker.Answered? {
        state := state.(handled := state.handled + {Handled(item.id, worker.answer, worker.late)});
      }
      if worker.Answered? && (worker.answer.RemoteDeleted? || worker.answer.RemoteUpdated?) {
        var conflict := Conflict(
          item.edit.draft,
          if worker.answer.RemoteDeleted? then Gone else Updated,
          item.edit.dto.version,
          item.edit.dto.content,
          if worker.answer.RemoteUpdated? then Some(worker.answer.current) else None);
        state := state.(
          conflicts := state.conflicts[state.nextConflict := conflict],
          recordedFor := state.recordedFor[state.nextConflict := item.id],
          nextConflict := state.nextConflict + 1,
          workers := state.workers[w := Recorded(worker.todo)]);
      } else if worker.Recorded? || worker.answer.Saved? {
        state := state.(pending := state.pending - {item.id}, workers := state.workers[w := Sending(worker.todo[1..])]);
      } else {
        state := state.(workers := state.workers[w := Sending(worker.todo[1..])]);
      }
      assert state == Step(before, Act(w, Arrives));
    }

    /**
      One pass over the queue: exactly a run of the protocol in which the worker
      starts, is never stopped, and has dealt with every item when it is idle again.
     */
    method ReplaySyncQueue() returns (ghost trace: seq<Event>)
      requires w in state.workers && At(Idle)
      modifies this
      ensures state == Run(old(state), trace)
      ensures trace != [] && trace[0] == Start(w) && Stop(w) !in trace
      ensures w in state.workers && At(Idle)
      ensures old(Quiet()) ==>
                StoresOf(state) == Replayed(StoresOf(old(state)), Snapshot(old(state).pending, old(state).nextItem))
    {
      ghost var start := state;
      var items := Snapshot(state.pending, state.nextItem);
      state := state.(workers := state.workers[w := Sending(items)]);
      trace := [] + [Start(w)];
      RunSnoc(start, [], Start(w));
      var i := 0;
      while i < |items|
        invariant 0 <= i <= |items| && w in state.workers && At(Sending(items[i..]))
        invariant state == Run(start, trace)
        invariant trace != [] && trace[0] == Start(w) && Stop(w) !in trace
        invariant old(Quiet()) ==>
          Quiet() && Replayed(StoresOf(state), items[i..]) == Replayed(StoresOf(start), items)
      {
        ghost var more;
        ghost var before := state;
        var answer: Option<Answer>;
        answer, more := Fetch(items[i..]);
        RunConcat(start, trace, more);
        trace := trace + more;
        if answer.Some? {
          more := Proceed(state.workers[w]);
          RunConcat(start, trace, more);
          trace := trace + more;
          if answer.value.RemoteDeleted? || answer.value.RemoteUpdated? {
            more := Proceed(Recorded(items[i..]));
            RunConcat(start, trace, more);
            trace := trace + more;
          }
        }
        if old(Quiet()) { QuietItem(before, w, items[i..]); }
        assert items[i..][1..] == items[i + 1..];
        i := i + 1;
      }
      RunSnoc(start, trace, Act(w, Arrives));
      trace := trace + [Act(w, Arrives)];
      state := state.(workers := state.workers[w := Idle]);
    }
  }
}
