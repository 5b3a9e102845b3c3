/**
  `publishScheduledDraftById`, written as the imperative code it is.

  At every await others may run; what they do there is given in advance by
  `schedule`.  `outcomes` tells which of the calls into the database succeed.
 */
module DraftWorker {
  import opened Options
  import opened Drafts
  import opened DraftPublishing
  import opened DraftPublishingTheorems

  /** How a call ends; `Waiting` is a call that still waits for the row lock. */
  datatype Result = Returned | Threw | Waiting

  ghost predicate LeavesAlone(batch: seq<Event>, w: WorkerId) {
    forall e | e in batch :: (e.Begin? || e.Act? || e.Crash?) ==> e.w != w
  }

  lemma {:induction false} OthersRun(s: State, batch: seq<Event>, w: WorkerId)
    requires w in s.workers && LeavesAlone(batch, w)
    ensures var t := Run(s, batch); w in t.workers && t.workers[w] == s.workers[w]
    decreases |batch|
  {
    if batch != [] {
      OthersRun(Step(s, batch[0]), batch[1..], w);
    }
  }

  lemma {:induction false} RunConcat(s: State, a: seq<Event>, b: seq<Event>)
    ensures Run(s, a + b) == Run(Run(s, a), b)
    decreases |a|
  {
    if a == [] {
      assert a + b == b;
    } else {
      assert (a + b)[1..] == a[1..] + b;
      RunConcat(Step(s, a[0]), a[1..], b);
    }
  }

  lemma RunSnoc(s: State, trace: seq<Event>, e: Event)
    ensures Run(s, trace + [e]) == Step(Run(s, trace), e)
  {
    RunConcat(s, trace, [e]);
    assert Run(Run(s, trace), [e]) == Run(Step(Run(s, trace), e), []);
  }

  /** The event ends a call of `w` with an exception: a rollback from the catch, or a failed commit. */
  ghost predicate Throws(s: State, w: WorkerId, e: Event) {
    && e.Act? && e.w == w && w in s.workers && s.workers[w].Open?
    && (|| s.workers[w].stage == Rethrown
        || (s.workers[w].stage == Caught && !e.ok)
        || (s.workers[w].stage == Written && !e.ok))
  }

  /** The last event of a call throws. */
  ghost predicate EndsThrowing(s: State, trace: seq<Event>, w: WorkerId) {
    trace != [] && Throws(Run(s, trace[..|trace| - 1]), w, trace[|trace| - 1])
  }

  lemma EndOfBoth(s: State, a: seq<Event>, b: seq<Event>, w: WorkerId)
    requires b != []
    ensures EndsThrowing(s, a + b, w) <==> EndsThrowing(Run(s, a), b, w)
  {
    assert (a + b)[..|a + b| - 1] == a + b[..|b| - 1];
    RunConcat(s, a, b[..|b| - 1]);
  }

  lemma EndOfOne(s: State, trace: seq<Event>, e: Event, w: WorkerId)
    ensures EndsThrowing(s, trace + [e], w) <==> Throws(Run(s, trace), w, e)
  {
    assert (trace + [e])[..|trace|] == trace;
  }

  /** How the next call into the database ends. */
  function Next(outcomes: seq<bool>): bool {
    outcomes == [] || outcomes[0]
  }

  /** The steps of a call that all succeed. */
  ghost predicate AllOk(trace: seq<Event>, w: WorkerId) {
    forall i | 0 <= i < |trace| :: trace[i] == Act(w, true)
  }

  /**
    What a call comes to when nothing is in its way: it publishes a draft that is
    scheduled for a time that has come and that was tried less than five times,
    and leaves any other alone.
   */
  ghost predicate PublishesWhenDue(s: State, t: State, id: DraftId, r: Result) {
    && r == Returned
    && (if id in s.server.drafts && Waits(s.server.drafts[id], s.server.now) then
          var d := s.server.drafts[id];
          && t.server == Put(s.server, id, d.(status := Posted, scheduledFor := None, publishAttempts := 0,
                                              lastPublishError := None, version := d.version + 1))
          && |t.confessions| == |s.confessions| + 1 && s.confessions <= t.confessions
          && t.confessions[|s.confessions|].message == d.content
        else Untouched(s, t))
  }

  lemma {:induction false} AllOkRests(s: State, w: WorkerId, rest: seq<Event>)
    requires w in s.workers && s.workers[w].Idle? && AllOk(rest, w)
    ensures Run(s, rest) == s
    decreases |rest|
  {
    if rest != [] {
      AllOkRests(s, w, rest[1..]);
    }
  }

  lemma {:induction false} AllOkIsActs(w: WorkerId, rest: seq<Event>) returns (outcomes: seq<bool>)
    requires AllOk(rest, w)
    ensures rest == Acts(w, outcomes) && |outcomes| == |rest|
    decreases |rest|
  {
    outcomes := [];
    if rest != [] {
      var more := AllOkIsActs(w, rest[1..]);
      outcomes := [true] + more;
      assert rest == [rest[0]] + rest[1..] && outcomes[1..] == more;
    }
  }

  /** Up to its commit, the call for a draft that waits is not over. */
  lemma NotYetOver(s: State, w: WorkerId, id: DraftId, rest: seq<Event>)
    requires (w in s.workers ==> s.workers[w].Idle?) && id !in s.locks
    requires id in s.server.drafts && Waits(s.server.drafts[id], s.server.now)
    requires AllOk(rest, w) && 1 <= |rest| <= 3
    ensures var t := Run(s, [Begin(w, id)] + rest); w in t.workers && t.workers[w].Open?
  {
    var act := Act(w, true);
    var a := Step(s, Begin(w, id));
    var b := Step(a, act);
    var c := Step(b, act);
    ThreeStepsPrepare(s, w, id);
    assert ([Begin(w, id)] + rest)[1..] == rest;
    assert b.workers[w].Open? && b.workers[w].stage == Fresh;
    assert Run(a, rest) == Run(b, rest[1..]);
    if |rest| >= 2 { assert Run(b, rest[1..]) == Run(c, rest[1..][1..]); }
    if |rest| == 3 { assert Run(c, rest[1..][1..]) == Run(Step(c, act), []); }
  }

  lemma WaitingDraftIsPublished(s: State, w: WorkerId, id: DraftId, rest: seq<Event>)
    requires (w in s.workers ==> s.workers[w].Idle?) && id !in s.locks
    requires id in s.server.drafts && Waits(s.server.drafts[id], s.server.now)
    requires AllOk(rest, w) && |rest| >= 4
    ensures PublishesWhenDue(s, Run(s, [Begin(w, id)] + rest), id, Returned)
  {
    DueDraftIsPublished(s, w, id);
    var five := [Begin(w, id), Act(w, true), Act(w, true), Act(w, true), Act(w, true)];
    assert [Begin(w, id)] + rest == five + rest[4..];
    RunConcat(s, five, rest[4..]);
    AllOkRests(Run(s, five), w, rest[4..]);
  }

  /** A call alone that is over has published its draft if it was due, and nothing otherwise. */
  lemma QuietCall(s: State, w: WorkerId, id: DraftId, rest: seq<Event>)
    requires (w in s.workers ==> s.workers[w].Idle?) && id !in s.locks
    requires AllOk(rest, w) && rest != []
    requires var t := Run(s, [Begin(w, id)] + rest); w in t.workers ==> t.workers[w].Idle?
    ensures PublishesWhenDue(s, Run(s, [Begin(w, id)] + rest), id, Returned)
  {
    if id in s.server.drafts && Waits(s.server.drafts[id], s.server.now) {
      if |rest| <= 3 { NotYetOver(s, w, id, rest); assert false; }
      WaitingDraftIsPublished(s, w, id, rest);
    } else {
      var outcomes := AllOkIsActs(w, rest);
      OtherDraftsAreLeft(s, w, id, outcomes);
    }
  }

  /** After its first look at the row the call has it, or is over. */
  lemma FirstLook(s: State, w: WorkerId, id: DraftId)
    requires (w in s.workers ==> s.workers[w].Idle?) && id !in s.locks
    ensures var t := Run(s, [Begin(w, id), Act(w, true)]); w in t.workers && !t.workers[w].Wanting?
  {
    var a := Step(s, Begin(w, id));
    var b := Step(a, Act(w, true));
    assert Run(a, [Act(w, true)]) == Run(b, []);
    assert Run(s, [Begin(w, id), Act(w, true)]) == Run(a, [Act(w, true)]);
    assert a.workers[w] == Wanting(id, s.nextAttempt) && a.locks == s.locks;
    assert b.workers[w].Open? || b.workers[w].Idle?;
  }

  lemma BeginRuns(s: State, w: WorkerId, id: DraftId)
    requires w in s.workers ==> s.workers[w].Idle?
    ensures Run(s, [Begin(w, id)])
         == s.(nextAttempt := s.nextAttempt + 1, workers := s.workers[w := Wanting(id, s.nextAttempt)])
  {
    assert Run(Step(s, Begin(w, id)), []) == Step(s, Begin(w, id));
  }

  class DraftPublisher {
    const w: WorkerId
    var state: State
    var schedule: seq<seq<Event>>
    var outcomes: seq<bool>

    ghost predicate At(pc: Pc)
      reads this
    {
      && w in state.workers && state.workers[w] == pc
      && forall batch | batch in schedule :: LeavesAlone(batch, w)
    }

    /** Nobody interferes, and every call into the database succeeds. */
    ghost predicate Quiet()
      reads this
    {
      schedule == [] && outcomes == []
    }

    /** Gives the others the floor for one batch. */
    method Await() returns (ghost batch: seq<Event>)
      requires w in state.workers && At(state.workers[w])
      modifies this
      ensures w in state.workers && At(old(state.workers[w])) && outcomes == old(outcomes)
      ensures state == Run(old(state), batch) && LeavesAlone(batch, w)
      ensures old(schedule) == [] ==> schedule == [] && batch == []
      ensures old(schedule) != [] ==> schedule == old(schedule)[1..]
    {
      batch := [];
      if schedule != [] {
        var events := schedule[0];
        schedule := schedule[1..];
        batch := events;
        ghost var start, rest := state, schedule;
        var i := 0;
        while i < |events|
          invariant 0 <= i <= |events| && schedule == rest && outcomes == old(outcomes)
          invariant state == Run(start, events[..i])
        {
          RunSnoc(start, events[..i], events[i]);
          assert events[..i + 1] == events[..i] + [events[i]];
          state := Step(state, events[i]);
          i := i + 1;
        }
        assert events[..|events|] == events;
        OthersRun(start, events, w);
      }
    }

    method NextOutcome() returns (ok: bool)
      modifies this`outcomes
      ensures ok == Next(old(outcomes))
      ensures outcomes == if old(outcomes) == [] then [] else old(outcomes)[1..]
    {
      ok := true;
      if outcomes != [] { ok, outcomes := outcomes[0], outcomes[1..]; }
    }

    /** Waits while another transaction holds the row. */
    method WaitForRow(id: DraftId, attempt: Attempt) returns (ghost trace: seq<Event>)
      requires At(Wanting(id, attempt))
      modifies this
      ensures state == Run(old(state), trace) && Crash(w) !in trace
      ensures At(Wanting(id, attempt)) && (id in state.locks ==> schedule == [])
      ensures old(Quiet()) ==> Quiet() && trace == []
    {
      ghost var start := state;
      trace := Await();
      while id in state.locks && schedule != []
        invariant At(Wanting(id, attempt)) && state == Run(start, trace) && Crash(w) !in trace
        invariant old(Quiet()) ==> Quiet() && trace == []
        decreases |schedule|
      {
        ghost var more := Await();
        RunConcat(start, trace, more);
        trace := trace + more;
      }
    }

    /** `getOne` with a write lock. */
    method FindLocked(id: DraftId, attempt: Attempt) returns (draft: Option<Draft>, ghost trace: seq<Event>)
      requires At(Wanting(id, attempt))
      modifies this
      ensures state == Run(old(state), trace) && Crash(w) !in trace
      ensures w in state.workers && At(state.workers[w])
      ensures var pc := state.workers[w];
              || (draft.Some? && pc == Open(id, attempt, draft.value, Tx(None, None), Fresh))
              || (draft.None? && (pc == Idle || (pc == Wanting(id, attempt) && schedule == [])))
      ensures trace != [] && !EndsThrowing(old(state), trace, w)
      ensures old(Quiet()) ==> Quiet() && trace == [Act(w, true)]
    {
      trace := WaitForRow(id, attempt);
      ghost var before := state;
      RunSnoc(old(state), trace, Act(w, true));
      EndOfOne(old(state), trace, Act(w, true), w);
      trace := trace + [Act(w, true)];
      draft := None;
      if id !in state.locks {
        if id in state.server.drafts {
          draft := Some(state.server.drafts[id]);
          state := state.(locks := state.locks[id := w],
                          workers := state.workers[w := Open(id, attempt, draft.value, Tx(None, None), Fresh)]);
        } else {
          state := state.(workers := state.workers[w := Idle]);
        }
      }
      assert state == Step(before, Act(w, true));
    }

    /** The checks after the lock, and `confessionService.create`; `None` when the draft is not due. */
    method CreateConfession(pc: Pc) returns (created: Option<bool>, ghost trace: seq<Event>)
      requires At(pc) && pc.Open? && pc.stage == Fresh
      modifies this
      ensures state == Run(old(state), trace) && Crash(w) !in trace
      ensures w in state.workers && At(state.workers[w])
      ensures created.None? <==> state.workers[w] == Idle
      ensures trace != [] && !EndsThrowing(old(state), trace, w)
      ensures created.Some? ==>
        && state.workers[w].Open? && state.workers[w].draft == pc.draft && state.workers[w].id == pc.id
        && state.workers[w].stage == (if created.value then Inserted else Caught)
      ensures trace[|trace| - 1] == Act(w, Next(old(outcomes)))
      ensures old(Quiet()) ==> Quiet() && trace == [Act(w, true)] && created != Some(false)
    {
      trace := Await();
      var ok := NextOutcome();
      ghost var before := state;
      RunSnoc(old(state), trace, Act(w, ok));
      EndOfOne(old(state), trace, Act(w, ok), w);
      trace := trace + [Act(w, ok)];
      var draft := pc.draft;
      if draft.status != Scheduled || draft.scheduledFor.None? || draft.scheduledFor.value > state.server.now
         || draft.publishAttempts >= MAX_PUBLISH_ATTEMPTS {
        state := state.(locks := state.locks - {pc.id}, workers := state.workers[w := Idle]);
        created := None;
      } else if !ok {
        state := state.(workers := state.workers[w := pc.(stage := Caught)]);
        created := Some(false);
      } else {
        var c := Confession(draft.content, ByWorker(pc.attempt, pc.id, SchedulingOf(state, pc.id)));
        state := state.(workers := state.workers[w := pc.(tx := pc.tx.(confession := Some(c)), stage := Inserted)]);
        created := Some(true);
      }
      assert state == Step(before, Act(w, ok));
    }

    method SavePosted(pc: Pc) returns (saved: bool, ghost trace: seq<Event>)
      requires At(pc) && pc.Open? && pc.stage == Inserted
      modifies this
      ensures state == Run(old(state), trace) && Crash(w) !in trace
      ensures w in state.workers && At(state.workers[w])
      ensures state.workers[w].Open? && state.workers[w].draft == pc.draft && state.workers[w].id == pc.id
      ensures state.workers[w].stage == if saved then Written else Caught
      ensures trace != [] && trace[|trace| - 1] == Act(w, Next(old(outcomes)))
      ensures old(Quiet()) ==> Quiet() && trace == [Act(w, true)] && saved
    {
      trace := Await();
      saved := NextOutcome();
      ghost var before := state;
      RunSnoc(old(state), trace, Act(w, saved));
      trace := trace + [Act(w, saved)];
      if saved {
        var draft := pc.draft.(status := Posted, scheduledFor := None, lastPublishError := None, publishAttempts := 0);
        state := state.(workers := state.workers[w := pc.(tx := pc.tx.(draft := Some(Save(pc.draft, draft))), stage := Written)]);
      } else {
        state := state.(workers := state.workers[w := pc.(stage := Caught)]);
      }
      assert state == Step(before, Act(w, saved));
    }

    method CommitTransaction(pc: Pc) returns (committed: bool, ghost trace: seq<Event>)
      requires At(pc) && pc.Open? && pc.stage == Written
      modifies this
      ensures state == Run(old(state), trace) && Crash(w) !in trace && At(Idle)
      ensures trace != [] && (EndsThrowing(old(state), trace, w) <==> !committed)
      ensures trace[|trace| - 1] == Act(w, Next(old(outcomes))) && committed == Next(old(outcomes))
      ensures old(Quiet()) ==> Quiet() && trace == [Act(w, true)] && committed
    {
      trace := Await();
      committed := NextOutcome();
      RunSnoc(old(state), trace, Act(w, committed));
      EndOfOne(old(state), trace, Act(w, committed), w);
      trace := trace + [Act(w, committed)];
      state := if committed then Commit(state, w) else Rollback(state, w);
    }

    /** The `catch`: count the attempt, save it, and rethrow, which rolls the save back too. */
    method CatchAndRethrow(pc: Pc) returns (ghost trace: seq<Event>)
      requires At(pc) && pc.Open? && pc.stage == Caught
      modifies this
      ensures state == Run(old(state), trace) && Crash(w) !in trace && At(Idle)
      ensures trace != [] && EndsThrowing(old(state), trace, w)
    {
      trace := Await();
      var saved := NextOutcome();
      RunSnoc(old(state), trace, Act(w, saved));
      EndOfOne(old(state), trace, Act(w, saved), w);
      trace := trace + [Act(w, saved)];
      if !saved {
        state := Rollback(state, w);
        return;
      }
      ghost var before := state;
      var draft := pc.draft.(publishAttempts := pc.draft.publishAttempts + 1, lastPublishError := Some("error"));
      state := state.(workers := state.workers[w := pc.(tx := pc.tx.(draft := Some(Save(pc.draft, draft))), stage := Rethrown)]);
      assert state == Step(before, Act(w, saved));
      ghost var more := Await();
      RunConcat(old(state), trace, more);
      trace := trace + more;
      RunSnoc(old(state), trace, Act(w, true));
      EndOfOne(old(state), trace, Act(w, true), w);
      trace := trace + [Act(w, true)];
      state := Rollback(state, w);
    }

    /** The transaction from the row lock on. */
    method PublishLocked(pc: Pc) returns (r: Result, ghost trace: seq<Event>)
      requires At(pc) && pc.Open? && pc.stage == Fresh
      modifies this
      ensures state == Run(old(state), trace) && Crash(w) !in trace && At(Idle) && r != Waiting
      ensures trace != [] && (EndsThrowing(old(state), trace, w) <==> r == Threw)
      ensures old(Quiet()) ==> Quiet() && r == Returned && AllOk(trace, w)
    {
      ghost var start := state;
      ghost var more;
      var created: Option<bool>;
      created, trace := CreateConfession(pc);
      if created.None? { return Returned, trace; }
      if created.value {
        r, more := SaveAndCommit(state.workers[w]);
      } else {
        more := CatchAndRethrow(state.workers[w]);
        r := Threw;
      }
      RunConcat(start, trace, more);
      EndOfBoth(start, trace, more, w);
      trace := trace + more;
    }

    /** Saves the posted draft and commits; a save that fails is caught. */
    method SaveAndCommit(pc: Pc) returns (r: Result, ghost trace: seq<Event>)
      requires At(pc) && pc.Open? && pc.stage == Inserted
      modifies this
      ensures state == Run(old(state), trace) && Crash(w) !in trace && At(Idle) && r != Waiting
      ensures trace != [] && (EndsThrowing(old(state), trace, w) <==> r == Threw)
      ensures old(Quiet()) ==> Quiet() && r == Returned && AllOk(trace, w)
    {
      ghost var start := state;
      ghost var more;
      var saved;
      saved, trace := SavePosted(pc);
      if saved {
        var committed;
        committed, more := CommitTransaction(state.workers[w]);
        r := if committed then Returned else Threw;
      } else {
        more := CatchAndRethrow(state.workers[w]);
        r := Threw;
      }
      RunConcat(start, trace, more);
      EndOfBoth(start, trace, more, w);
      trace := trace + more;
    }

    /** The call from its start until it has the row, or finds none, or still waits for it. */
    method BeginAndLock(id: DraftId) returns (draft: Option<Draft>, ghost trace: seq<Event>)
      requires At(Idle)
      modifies this
      ensures state == Run(old(state), trace)
      ensures trace != [] && trace[0] == Begin(w, id) && Crash(w) !in trace && !EndsThrowing(old(state), trace, w)
      ensures w in state.workers && At(state.workers[w])
      ensures draft.Some? ==> state.workers[w].Open? && state.workers[w].stage == Fresh
      ensures draft.None? ==> state.workers[w] == Idle || state.workers[w].Wanting?
      ensures old(Quiet()) ==> Quiet() && trace == [Begin(w, id), Act(w, true)]
    {
      ghost var start := state;
      var attempt := state.nextAttempt;
      state := state.(nextAttempt := attempt + 1, workers := state.workers[w := Wanting(id, attempt)]);
      trace := [Begin(w, id)];
      BeginRuns(start, w, id);
      ghost var more;
      draft, more := FindLocked(id, attempt);
      RunConcat(start, trace, more);
      EndOfBoth(start, trace, more, w);
      trace := trace + more;
    }

    /**
      One call: exactly a run of the protocol in which the worker begins, does not
      crash, and is idle again, unless it still waits for the row.
     */
    method PublishScheduledDraftById(id: DraftId) returns (r: Result, ghost trace: seq<Event>)
      requires At(Idle)
      modifies this
      ensures state == Run(old(state), trace)
      ensures trace != [] && trace[0] == Begin(w, id) && Crash(w) !in trace
      ensures w in state.workers && if r == Waiting then state.workers[w].Wanting? else state.workers[w] == Idle
      ensures r == Threw <==> EndsThrowing(old(state), trace, w)
      ensures old(Quiet()) && id !in old(state).locks ==> PublishesWhenDue(old(state), state, id, r)
    {
      ghost var start := state;
      var draft: Option<Draft>;
      draft, trace := BeginAndLock(id);
      if old(Quiet()) && id !in old(state).locks { FirstLook(start, w, id); }
      if draft.None? {
        r := if state.workers[w].Idle? then Returned else Waiting;
      } else {
        ghost var more;
        r, more := PublishLocked(state.workers[w]);
        RunConcat(start, trace, more);
        EndOfBoth(start, trace, more, w);
        trace := trace + more;
      }
      if old(Quiet()) && id !in old(state).locks {
        assert trace == [Begin(w, id)] + trace[1..];
        QuietCall(start, w, id, trace[1..]);
      }
    }
  }

  // ---- The queue -----------------------------------------------------------

  datatype Job = Job(id: DraftId, attempts: nat)

  const JOB_ATTEMPTS := 5

  /** The query's conditions: scheduled, for a time that has come, and tried less than five times. */
  predicate Waits(d: Draft, now: nat) {
    d.status == Scheduled && d.scheduledFor.Some? && d.scheduledFor.value <= now && d.publishAttempts < 5
  }

  /** What the query of `enqueueDueDraftIds` gives: due rows, the earliest first, each once, at most 200. */
  ghost predicate IsDueList(s: Server, ids: seq<DraftId>) {
    && |ids| <= 200
    && (forall i | 0 <= i < |ids| :: ids[i] in s.drafts && Waits(s.drafts[ids[i]], s.now))
    && (forall i, j | 0 <= i < j < |ids| ::
          ids[i] != ids[j] && s.drafts[ids[i]].scheduledFor.value <= s.drafts[ids[j]].scheduledFor.value)
    // What is left out is due no earlier, and only when the limit is reached.
    && (forall id | id in s.drafts && Waits(s.drafts[id], s.now) && id !in ids ::
          |ids| == 200 && s.drafts[ids[199]].scheduledFor.value <= s.drafts[id].scheduledFor.value)
  }

  function JobsFor(ids: seq<DraftId>): (jobs: seq<Job>)
    ensures |jobs| == |ids|
  {
    if ids == [] then [] else [Job(ids[0], 0)] + JobsFor(ids[1..])
  }

  class ConfessionDraftQueue {
    const publisher: DraftPublisher
    var jobs: seq<Job>

    constructor (publisher: DraftPublisher)
      ensures this.publisher == publisher && jobs == []
    {
      this.publisher, jobs := publisher, [];
    }

    /** The `publish-due` job. */
    method PublishDue(ids: seq<DraftId>) returns (enqueued: nat)
      requires IsDueList(publisher.state.server, ids)
      modifies this`jobs
      ensures enqueued == |ids| && jobs == old(jobs) + JobsFor(ids)
    {
      var i := 0;
      while i < |ids|
        invariant 0 <= i <= |ids| && jobs + JobsFor(ids[i..]) == old(jobs) + JobsFor(ids)
      {
        assert ids[i..][1..] == ids[i + 1..];
        assert jobs + ([Job(ids[i], 0)] + JobsFor(ids[i + 1..])) == (jobs + [Job(ids[i], 0)]) + JobsFor(ids[i + 1..]);
        jobs := jobs + [Job(ids[i], 0)];
        i := i + 1;
      }
      enqueued := |ids|;
    }

    /** The `publish-one` job at the head of the queue; one that throws is tried again, five times in all. */
    method PublishOne() returns (r: Result, ghost trace: seq<Event>)
      requires jobs != [] && publisher.At(Idle)
      modifies this`jobs, publisher
      ensures publisher.state == Run(old(publisher.state), trace) && trace != []
      ensures trace[0] == Begin(publisher.w, old(jobs[0]).id) && Crash(publisher.w) !in trace
      ensures r == Threw <==> EndsThrowing(old(publisher.state), trace, publisher.w)
      ensures var job := old(jobs[0]);
              jobs == old(jobs)[1..] + if r == Threw && job.attempts < 4 then [Job(job.id, job.attempts + 1)] else []
    {
      var job := jobs[0];
      jobs := jobs[1..];
      r, trace := publisher.PublishScheduledDraftById(job.id);
      if r == Threw && job.attempts + 1 < JOB_ATTEMPTS {
        jobs := jobs + [Job(job.id, job.attempts + 1)];
      }
    }
  }
}
