/**
  What concurrent publishing keeps over every run: a scheduling is published at
  most once, and a confession appears exactly when its draft is posted.
 */
module DraftPublishingTheorems {
  import opened Options
  import opened Drafts
  import opened DraftPublishing

  // ---- Requests ------------------------------------------------------------

  /** What a request does to the rows that matter here. */
  lemma RequestFacts(s: Server, user: UserId, r: Drafts.Request)
    requires IdsUsed(s) && forall id | id in s.drafts :: NeverFailed(s.drafts[id])
    ensures var (t, a) := Serve(s, user, r);
            && IdsUsed(t) && s.nextId <= t.nextId && t.now == s.now
            && (forall id | id in t.drafts :: NeverFailed(t.drafts[id]))
            && (forall id | id in t.drafts && id !in s.drafts :: id == s.nextId < t.nextId)
            && (forall id | id in s.drafts && id in t.drafts && s.drafts[id].status != Scheduled && t.drafts[id].status == Scheduled ::
                  StartsScheduling(r, a) && a.id == id)
            && (forall id | id in t.drafts && id !in s.drafts && t.drafts[id].status == Scheduled ::
                  StartsScheduling(r, a) && a.id == id)
            && (StartsScheduling(r, a) ==> a.id in t.drafts)
  {
  }

  lemma UnwrittenRowsStay(s: State, user: UserId, r: Drafts.Request, id: DraftId)
    requires id in s.server.drafts && !Writes(s, user, r, id) && IdsUsed(s.server)
    ensures var (t, a) := Serve(s.server, user, r);
            && id in t.drafts && t.drafts[id] == s.server.drafts[id]
            && (StartsScheduling(r, a) ==> a.id != id)
  {
  }

  lemma RequestKeepsWorkers(s: State, user: UserId, r: Drafts.Request)
    requires Inv(s) && !Blocked(s, user, r)
    ensures var t := TakeRequest(s, user, r);
            && (forall w | w in t.workers :: WorkerOk(t, w))
            && (forall id | id in t.locks :: LockOk(t, id))
  {
    var t := TakeRequest(s, user, r);
    forall w | w in t.workers ensures WorkerOk(t, w) {
      assert WorkerOk(s, w);
      var pc := s.workers[w];
      if pc.Open? {
        assert !Writes(s, user, r, pc.id);
        UnwrittenRowsStay(s, user, r, pc.id);
        assert SchedulingOf(t, pc.id) == SchedulingOf(s, pc.id);
      }
    }
    forall id | id in t.locks ensures LockOk(t, id) { assert LockOk(s, id); }
  }

  lemma RequestKeepsConfessions(s: State, user: UserId, r: Drafts.Request)
    requires Inv(s) && !Blocked(s, user, r)
    ensures ConfessionsOk(TakeRequest(s, user, r)) && MovesOk(TakeRequest(s, user, r))
  {
    var t := TakeRequest(s, user, r);
    RequestFacts(s.server, user, r);
    forall i | 0 <= i < |t.confessions| ensures OriginOk(t, t.confessions[i]) {
      if i < |s.confessions| { assert OriginOk(s, s.confessions[i]); }
    }
    forall i, j | 0 <= i < j < |t.confessions| ensures InOrder(t.confessions[i], t.confessions[j]) {
      if j < |s.confessions| { assert InOrder(s.confessions[i], s.confessions[j]); }
    }
    if |t.confessions| == |s.confessions| {
      assert t.confessions == s.confessions;
    } else {
      assert t.confessions[..|t.confessions| - 1] == s.confessions;
    }
  }

  lemma RequestKeeps(s: State, user: UserId, r: Drafts.Request)
    requires Inv(s)
    ensures Inv(TakeRequest(s, user, r))
  {
    if !Blocked(s, user, r) {
      RequestFacts(s.server, user, r);
      RequestKeepsWorkers(s, user, r);
      RequestKeepsConfessions(s, user, r);
    }
  }

  // ---- Workers -------------------------------------------------------------

  /** Nothing but the program counter of one worker, and the lock it holds, is different. */
  lemma LocalStepKeeps(s: State, t: State, w: WorkerId)
    requires Inv(s)
    requires t.server == s.server && t.confessions == s.confessions && t.moves == s.moves && t.schedulings == s.schedulings
    requires s.nextAttempt <= t.nextAttempt
    requires w in t.workers && WorkerOk(t, w)
    requires t.workers.Keys == s.workers.Keys + {w} && forall v | v in t.workers && v != w :: t.workers[v] == s.workers[v]
    requires forall id | id in s.locks && s.locks[id] != w :: id in t.locks && t.locks[id] == s.locks[id]
    requires forall id | id in t.locks :: if t.locks[id] == w then LockOk(t, id) else id in s.locks && s.locks[id] == t.locks[id]
    ensures Inv(t)
  {
    forall v | v in t.workers ensures WorkerOk(t, v) {
      if v != w {
        assert WorkerOk(s, v);
        assert t.workers[v].Open? ==> TxOk(t, t.workers[v]);
      }
    }
    forall id | id in t.locks ensures LockOk(t, id) {
      if t.locks[id] != w { assert LockOk(s, id); }
    }
    forall i | 0 <= i < |t.confessions| ensures OriginOk(t, t.confessions[i]) { assert OriginOk(s, s.confessions[i]); }
  }

  lemma RollbackKeeps(s: State, w: WorkerId)
    requires Inv(s) && w in s.workers
    ensures Inv(Rollback(s, w))
  {
    assert WorkerOk(s, w);
    var t := Rollback(s, w);
    forall id | id in t.locks ensures t.locks[id] != w {
      assert LockOk(s, id);
    }
    LocalStepKeeps(s, t, w);
  }

  lemma LockKeeps(s: State, w: WorkerId, id: DraftId, attempt: Attempt)
    requires Inv(s) && w in s.workers && s.workers[w] == Wanting(id, attempt)
    ensures Inv(Lock(s, w, id, attempt))
  {
    assert WorkerOk(s, w);
    var t := Lock(s, w, id, attempt);
    if id !in s.locks {
      forall l | l in s.locks ensures s.locks[l] != w { assert LockOk(s, l); }
      LocalStepKeeps(s, t, w);
    }
  }

  lemma StageKeeps(s: State, w: WorkerId, pc: Pc)
    requires Inv(s) && w in s.workers && s.workers[w].Open? && pc.Open?
    requires pc.id == s.workers[w].id && pc.draft == s.workers[w].draft && pc.attempt == s.workers[w].attempt
    requires TxOk(s, pc)
    ensures Inv(Become(s, w, pc))
  {
    assert WorkerOk(s, w);
    var t := Become(s, w, pc);
    assert TxOk(t, pc);
    forall id | id in t.locks && t.locks[id] == w ensures LockOk(t, id) { assert LockOk(s, id); }
    LocalStepKeeps(s, t, w);
  }

  /** The visible half of a commit: one confession, one posted row. */
  function Shown(s: State, w: WorkerId): State
    requires w in s.workers && s.workers[w].Open? && s.workers[w].tx.confession.Some? && s.workers[w].tx.draft.Some?
  {
    var pc := s.workers[w];
    s.(confessions := s.confessions + [pc.tx.confession.value],
       server := Put(s.server, pc.id, pc.tx.draft.value),
       moves := s.moves + [Move(pc.attempt, pc.id, SchedulingOf(s, pc.id), pc.draft.content, pc.draft.scheduledFor, s.server.now)])
  }

  lemma CommitShows(s: State, w: WorkerId)
    requires Inv(s) && w in s.workers && s.workers[w].Open? && s.workers[w].stage == Written
    ensures s.workers[w].tx.confession.Some? && s.workers[w].tx.draft.Some?
    ensures Commit(s, w) == Rollback(Shown(s, w), w)
  {
    assert WorkerOk(s, w);
  }

  lemma CommitKeepsConfessions(s: State, w: WorkerId)
    requires Inv(s) && w in s.workers && s.workers[w].Open? && s.workers[w].stage == Written
    requires s.workers[w].tx.confession.Some? && s.workers[w].tx.draft.Some?
    ensures ConfessionsOk(Shown(s, w)) && MovesOk(Shown(s, w))
  {
    assert WorkerOk(s, w);
    var t, pc := Shown(s, w), s.workers[w];
    forall i | 0 <= i < |t.confessions| ensures OriginOk(t, t.confessions[i]) {
      if i < |s.confessions| { assert OriginOk(s, s.confessions[i]); }
    }
    forall i, j | 0 <= i < j < |t.confessions| ensures InOrder(t.confessions[i], t.confessions[j]) {
      assert OriginOk(s, s.confessions[i]);
      if j < |s.confessions| { assert InOrder(s.confessions[i], s.confessions[j]); }
    }
    assert t.confessions[..|s.confessions|] == s.confessions;
    assert FromWorkers(t.confessions) == FromWorkers(s.confessions) + [pc.tx.confession.value];
  }

  lemma CommitKeepsWorkers(s: State, w: WorkerId)
    requires Inv(s) && w in s.workers && s.workers[w].Open? && s.workers[w].stage == Written
    requires s.workers[w].tx.confession.Some? && s.workers[w].tx.draft.Some?
    ensures var u := Rollback(Shown(s, w), w);
            && (forall v | v in u.workers :: WorkerOk(u, v))
            && (forall id | id in u.locks :: LockOk(u, id))
  {
    assert WorkerOk(s, w);
    var u, pc := Rollback(Shown(s, w), w), s.workers[w];
    forall v | v in u.workers ensures WorkerOk(u, v) {
      if v != w {
        assert WorkerOk(s, v);
        assert u.workers[v].Open? ==> u.workers[v].id != pc.id && TxOk(u, u.workers[v]);
      }
    }
    forall id | id in u.locks ensures LockOk(u, id) { assert LockOk(s, id); }
  }

  lemma CommitKeeps(s: State, w: WorkerId)
    requires Inv(s) && w in s.workers && s.workers[w].Open? && s.workers[w].stage == Written
    ensures Inv(Commit(s, w))
  {
    assert WorkerOk(s, w);
    CommitShows(s, w);
    CommitKeepsConfessions(s, w);
    CommitKeepsWorkers(s, w);
    var t := Shown(s, w);
    var u := Rollback(t, w);
    forall i | 0 <= i < |u.confessions| ensures OriginOk(u, u.confessions[i]) { assert OriginOk(t, t.confessions[i]); }
  }

  lemma TransactionStepKeeps(s: State, w: WorkerId, ok: bool)
    requires Inv(s) && w in s.workers && s.workers[w].Open?
    ensures Inv(TransactionStep(s, w, ok))
  {
    assert WorkerOk(s, w);
    RollbackKeeps(s, w);
    var pc := s.workers[w];
    match pc.stage
    case Written => if ok { CommitKeeps(s, w); }
    case Rethrown =>
    case _ =>
      var t := TransactionStep(s, w, ok);
      if t != Rollback(s, w) { StageKeeps(s, w, t.workers[w]); }
  }

  lemma StepKeeps(s: State, e: Event)
    requires Inv(s)
    ensures Inv(Step(s, e))
  {
    var t := Step(s, e);
    match e
    case Begin(w, id) =>
      if !(w in s.workers && !s.workers[w].Idle?) {
        forall l | l in s.locks ensures s.locks[l] != w { assert LockOk(s, l); }
        LocalStepKeeps(s, t, w);
      }
    case Act(w, ok) =>
      if w in s.workers {
        match s.workers[w]
        case Idle =>
        case Wanting(id, attempt) => LockKeeps(s, w, id, attempt);
        case Open(_, _, _, _, _) => TransactionStepKeeps(s, w, ok);
      }
    case Crash(w) => if w in s.workers { RollbackKeeps(s, w); }
    case Request(user, r) => RequestKeeps(s, user, r);
    case Elapse(ms) => ElapseKeeps(s, ms);
  }

  lemma ElapseKeeps(s: State, ms: nat)
    requires Inv(s)
    ensures Inv(Step(s, Elapse(ms)))
  {
    var t := Step(s, Elapse(ms));
    forall v | v in t.workers ensures WorkerOk(t, v) {
      assert WorkerOk(s, v);
      assert t.workers[v].Open? ==> TxOk(t, t.workers[v]);
    }
    forall id | id in t.locks ensures LockOk(t, id) { assert LockOk(s, id); }
    forall i | 0 <= i < |t.confessions| ensures OriginOk(t, t.confessions[i]) { assert OriginOk(s, s.confessions[i]); }
  }

  lemma {:induction false} RunKeeps(s: State, trace: seq<Event>)
    requires Inv(s)
    ensures Inv(Run(s, trace))
    decreases |trace|
  {
    if trace != [] {
      StepKeeps(s, trace[0]);
      RunKeeps(Step(s, trace[0]), trace[1..]);
    }
  }

  // ---- Main results --------------------------------------------------------

  /** Each scheduling of a draft yields at most one confession of a worker, and later ones come from later schedulings. */
  lemma OneConfessionPerScheduling(s: State, trace: seq<Event>, i: nat, j: nat)
    requires Initial(s)
    requires var cs := Run(s, trace).confessions;
             i < j < |cs| && cs[i].origin.ByWorker? && cs[j].origin.ByWorker? && cs[i].origin.draft == cs[j].origin.draft
    ensures var cs := Run(s, trace).confessions;
            && cs[i].origin.scheduling < cs[j].origin.scheduling
            && cs[j].origin.scheduling <= SchedulingOf(Run(s, trace), cs[j].origin.draft)
  {
    RunKeeps(s, trace);
    var t := Run(s, trace);
    assert InOrder(t.confessions[i], t.confessions[j]) && OriginOk(t, t.confessions[j]);
  }

  /**
    In every committed state the confessions of workers are, one for one and in
    order, the rows that workers moved to `posted`: same attempt, same draft, the
    row's content as the message, and never before the scheduled time.
   */
  lemma ConfessionsAreThePostedDrafts(s: State, trace: seq<Event>)
    requires Initial(s)
    ensures MovesOk(Run(s, trace))
  {
    RunKeeps(s, trace);
  }

  /**
    A step of a worker shows either nothing at all, or its whole transaction: one
    new confession and its own draft posted.  In particular an attempt that fails
    or crashes leaves every row and every confession as it was.
   */
  lemma AllOrNothing(s: State, trace: seq<Event>, e: Event)
    requires Initial(s) && (e.Begin? || e.Act? || e.Crash?)
    ensures var t, u := Run(s, trace), Step(Run(s, trace), e);
            || (u.server == t.server && u.confessions == t.confessions)
            || (&& e.Act? && e.w in t.workers && t.workers[e.w].Open?
                && var id := t.workers[e.w].id;
                   && id in t.server.drafts && t.server.drafts[id].status == Scheduled
                   && var d := t.server.drafts[id];
                      && u.server == Put(t.server, id, PostedBy(d).(version := d.version + 1))
                      && u.confessions == t.confessions
                         + [Confession(d.content, ByWorker(t.workers[e.w].attempt, id, SchedulingOf(t, id)))])
  {
    RunKeeps(s, trace);
    var t := Run(s, trace);
    if e.Act? && e.w in t.workers && t.workers[e.w].Open? && t.workers[e.w].stage == Written {
      assert WorkerOk(t, e.w);
      CommitShows(t, e.w);
    }
  }

  /** No committed state ever counts a failed attempt: the limit of five is never reached. */
  lemma AttemptsAreNeverCounted(s: State, trace: seq<Event>, id: DraftId)
    requires Initial(s) && id in Run(s, trace).server.drafts
    ensures Run(s, trace).server.drafts[id].publishAttempts == 0
    ensures Run(s, trace).server.drafts[id].lastPublishError == None
  {
    RunKeeps(s, trace);
    assert NeverFailed(Run(s, trace).server.drafts[id]);
  }

  /** What the three steps up to the commit of a due draft come to. */
  function Prepared(s: State, w: WorkerId, id: DraftId): State
    requires id in s.server.drafts
  {
    var d := s.server.drafts[id];
    var c := Confession(d.content, ByWorker(s.nextAttempt, id, SchedulingOf(s, id)));
    Become(s.(nextAttempt := s.nextAttempt + 1, locks := s.locks[id := w]), w,
           Open(id, s.nextAttempt, d, Tx(Some(c), Some(Save(d, PostedBy(d)))), Written))
  }

  lemma ThreeStepsPrepare(s: State, w: WorkerId, id: DraftId)
    requires w in s.workers ==> s.workers[w].Idle?
    requires id in s.server.drafts && id !in s.locks && Due(s.server.drafts[id], s.server.now)
    ensures Step(Step(Step(Step(s, Begin(w, id)), Act(w, true)), Act(w, true)), Act(w, true)) == Prepared(s, w, id)
  {
    var d, act := s.server.drafts[id], Act(w, true);
    var a := Step(s, Begin(w, id));
    var b := Step(a, act);
    assert b.workers[w] == Open(id, s.nextAttempt, d, Tx(None, None), Fresh);
    var c := Step(b, act);
    assert c.workers[w].Open? && c.workers[w].stage == Inserted;
    assert Step(c, act).workers == Prepared(s, w, id).workers;
  }

  /**
    Nothing in the way, a scheduled draft whose time has come is published by one
    job: it is posted with all it says, and its text is a confession.
   */
  lemma DueDraftIsPublished(s: State, w: WorkerId, id: DraftId)
    requires w in s.workers ==> s.workers[w].Idle?
    requires id in s.server.drafts && id !in s.locks
    requires var d := s.server.drafts[id];
             d.status == Scheduled && d.scheduledFor.Some? && d.scheduledFor.value <= s.server.now && d.publishAttempts < 5
    ensures var t := Run(s, [Begin(w, id), Act(w, true), Act(w, true), Act(w, true), Act(w, true)]);
            var d := s.server.drafts[id];
            && t.server == s.server.(drafts := s.server.drafts[id := d.(
                 status := Posted, scheduledFor := None, publishAttempts := 0, lastPublishError := None,
                 version := d.version + 1)])
            && t.confessions == s.confessions + [Confession(d.content, ByWorker(s.nextAttempt, id, SchedulingOf(s, id)))]
            && t.locks == s.locks && w in t.workers && t.workers[w] == Idle
  {
    FiveSteps(s, Begin(w, id), Act(w, true));
    ThreeStepsPrepare(s, w, id);
    CommitOfPrepared(s, w, id);
  }

  /** The steps of one worker, with these outcomes. */
  function Acts(w: WorkerId, outcomes: seq<bool>): seq<Event> {
    if outcomes == [] then [] else [Act(w, outcomes[0])] + Acts(w, outcomes[1..])
  }

  lemma {:induction false} IdleRests(s: State, w: WorkerId, outcomes: seq<bool>)
    requires w in s.workers && s.workers[w].Idle?
    ensures Run(s, Acts(w, outcomes)) == s
    decreases |outcomes|
  {
    if outcomes != [] { IdleRests(s, w, outcomes[1..]); }
  }

  /** The draft is missing, not scheduled, too early, or tried five times. */
  predicate Unpublishable(s: Server, id: DraftId) {
    id in s.drafts ==>
      var d := s.drafts[id];
      d.status != Scheduled || d.scheduledFor.None? || d.scheduledFor.value > s.now || d.publishAttempts >= 5
  }

  /** Nothing to be seen from outside. */
  predicate Untouched(s: State, t: State) {
    t.server == s.server && t.confessions == s.confessions && t.moves == s.moves
  }

  lemma LockOrReturn(s: State, w: WorkerId, id: DraftId, ok: bool)
    requires (w in s.workers ==> s.workers[w].Idle?) && id !in s.locks && Unpublishable(s.server, id)
    ensures var b := Step(Step(s, Begin(w, id)), Act(w, ok));
            && Untouched(s, b) && w in b.workers
            && (if id in s.server.drafts then
                  && b.workers[w] == Open(id, s.nextAttempt, s.server.drafts[id], Tx(None, None), Fresh)
                  && b.locks == s.locks[id := w]
                else b.workers[w] == Idle && b.locks == s.locks)
  {
  }

  lemma LookAndReturn(s: State, b: State, w: WorkerId, id: DraftId, ok: bool)
    requires Untouched(s, b) && w in b.workers && id !in s.locks && Unpublishable(s.server, id)
    requires if id in s.server.drafts then
               && b.workers[w].Open? && b.workers[w].id == id && b.workers[w].draft == s.server.drafts[id]
               && b.workers[w].stage == Fresh && b.locks == s.locks[id := w]
             else b.workers[w] == Idle && b.locks == s.locks
    ensures var c := Step(b, Act(w, ok));
            Untouched(s, c) && w in c.workers && c.workers[w] == Idle && c.locks == s.locks
  {
    assert s.locks[id := w] - {id} == s.locks;
  }

  /**
    And no other draft is: a job for one that is missing, not scheduled, too early
    or tried five times changes no row and adds no confession, whatever its steps
    come to, and after two of them it is over.
   */
  lemma OtherDraftsAreLeft(s: State, w: WorkerId, id: DraftId, outcomes: seq<bool>)
    requires (w in s.workers ==> s.workers[w].Idle?) && id !in s.locks && Unpublishable(s.server, id)
    ensures var t := Run(s, [Begin(w, id)] + Acts(w, outcomes));
            && Untouched(s, t)
            && (|outcomes| >= 2 ==> w in t.workers && t.workers[w] == Idle && t.locks == s.locks)
  {
    var a := Step(s, Begin(w, id));
    assert ([Begin(w, id)] + Acts(w, outcomes))[1..] == Acts(w, outcomes);
    if outcomes != [] {
      LockOrReturn(s, w, id, outcomes[0]);
      LeftAfterLock(s, Step(a, Act(w, outcomes[0])), w, id, outcomes[1..]);
    }
  }

  lemma LeftAfterLock(s: State, b: State, w: WorkerId, id: DraftId, outcomes: seq<bool>)
    requires Untouched(s, b) && w in b.workers && id !in s.locks && Unpublishable(s.server, id)
    requires if id in s.server.drafts then
               && b.workers[w].Open? && b.workers[w].id == id && b.workers[w].draft == s.server.drafts[id]
               && b.workers[w].stage == Fresh && b.locks == s.locks[id := w]
             else b.workers[w] == Idle && b.locks == s.locks
    ensures var t := Run(b, Acts(w, outcomes));
            && Untouched(s, t)
            && (outcomes != [] ==> w in t.workers && t.workers[w] == Idle && t.locks == s.locks)
  {
    if outcomes != [] {
      LookAndReturn(s, b, w, id, outcomes[0]);
      IdleRests(Step(b, Act(w, outcomes[0])), w, outcomes[1..]);
    }
  }

  lemma CommitOfPrepared(s: State, w: WorkerId, id: DraftId)
    requires id in s.server.drafts && id !in s.locks && s.server.drafts[id].status == Scheduled
    ensures var t, d := Step(Prepared(s, w, id), Act(w, true)), s.server.drafts[id];
            && t.server == Put(s.server, id, PostedBy(d).(version := d.version + 1))
            && t.confessions == s.confessions + [Confession(d.content, ByWorker(s.nextAttempt, id, SchedulingOf(s, id)))]
            && t.locks == s.locks && w in t.workers && t.workers[w] == Idle
  {
    assert s.locks[id := w] - {id} == s.locks;
  }

  lemma FiveSteps(s: State, first: Event, act: Event)
    ensures Run(s, [first, act, act, act, act]) == Step(Step(Step(Step(Step(s, first), act), act), act), act)
  {
    var t := Step(s, first);
    assert [first, act, act, act, act][1..] == [act, act, act, act];
    assert [act, act, act, act][1..] == [act, act, act];
    assert [act, act, act][1..] == [act, act];
    assert [act, act][1..] == [act];
    assert [act][1..] == [];
    var u := Step(Step(t, act), act);
    assert Run(t, [act, act, act, act]) == Run(Step(t, act), [act, act, act]) == Run(u, [act, act]);
    assert Run(u, [act, act]) == Run(Step(u, act), [act]) == Run(Step(Step(u, act), act), []);
  }
}
