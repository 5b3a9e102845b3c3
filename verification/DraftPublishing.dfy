/**
  Scheduled drafts are published by any number of workers, each in a
  transaction that locks the draft's row.

  A transaction's writes stay in its own buffer until it commits.  A request of
  a user is one atomic step, and waits while a row that it writes is locked.
 */
module DraftPublishing {
  import opened Options
  import opened Drafts

  type WorkerId = nat

  /** Every call of `publishScheduledDraftById` is an attempt of its own. */
  type Attempt = nat

  datatype Origin = ByWorker(attempt: Attempt, draft: DraftId, scheduling: nat) | ByUser(draft: DraftId)

  datatype Confession = Confession(message: string, origin: Origin)

  /** A committed change of a row to `posted` by a worker. */
  datatype Move = Move(attempt: Attempt, draft: DraftId, scheduling: nat, content: string, due: Option<int>, at: nat)

  datatype Stage = Fresh | Inserted | Written | Caught | Rethrown

  datatype Tx = Tx(confession: Option<Confession>, draft: Option<Draft>)

  datatype Pc =
    | Idle
    | Wanting(id: DraftId, attempt: Attempt)
    | Open(id: DraftId, attempt: Attempt, draft: Draft, tx: Tx, stage: Stage)

  datatype State = State(
    server: Server,
    confessions: seq<Confession>,
    locks: map<DraftId, WorkerId>,
    workers: map<WorkerId, Pc>,
    nextAttempt: Attempt,
    // Counts and logs that no step looks at.
    schedulings: map<DraftId, nat>,
    moves: seq<Move>
  )

  datatype Event =
    | Begin(w: WorkerId, id: DraftId)
    | Act(w: WorkerId, ok: bool)
    | Crash(w: WorkerId)
    | Request(user: UserId, r: Drafts.Request)
    | Elapse(ms: nat)

  const MAX_PUBLISH_ATTEMPTS := 5

  // ---- Steps of a worker ---------------------------------------------------

  function SchedulingOf(s: State, id: DraftId): nat {
    if id in s.schedulings then s.schedulings[id] else 0
  }

  function Become(s: State, w: WorkerId, pc: Pc): State {
    s.(workers := s.workers[w := pc])
  }

  /** The end of a transaction, with nothing of it left. */
  function Rollback(s: State, w: WorkerId): State
    requires w in s.workers
  {
    var pc := s.workers[w];
    Become(if pc.Open? then s.(locks := s.locks - {pc.id}) else s, w, Idle)
  }

  function Commit(s: State, w: WorkerId): State
    requires w in s.workers && s.workers[w].Open?
  {
    var pc := s.workers[w];
    var t := s.(
      confessions := s.confessions + (if pc.tx.confession.Some? then [pc.tx.confession.value] else []),
      server := if pc.tx.draft.Some? then Put(s.server, pc.id, pc.tx.draft.value) else s.server,
      moves := s.moves + (if pc.tx.draft.Some? && pc.tx.draft.value.status == Posted
                          then [Move(pc.attempt, pc.id, SchedulingOf(s, pc.id),
                                     pc.draft.content, pc.draft.scheduledFor, s.server.now)]
                          else []));
    Rollback(t, w)
  }

  predicate Due(d: Draft, now: nat) {
    && d.status == Scheduled
    && d.scheduledFor.Some? && d.scheduledFor.value <= now
    && d.publishAttempts < MAX_PUBLISH_ATTEMPTS
  }

  function Lock(s: State, w: WorkerId, id: DraftId, attempt: Attempt): State
    requires w in s.workers
  {
    if id in s.locks then s
    else if id !in s.server.drafts then Become(s, w, Idle)
    else
      Become(s.(locks := s.locks[id := w]), w, Open(id, attempt, s.server.drafts[id], Tx(None, None), Fresh))
  }

  function TransactionStep(s: State, w: WorkerId, ok: bool): State
    requires w in s.workers && s.workers[w].Open?
  {
    var pc := s.workers[w];
    match pc.stage
    case Fresh =>
      if !Due(pc.draft, s.server.now) then Rollback(s, w)
      else if !ok then Become(s, w, pc.(stage := Caught))
      else
        var c := Confession(pc.draft.content, ByWorker(pc.attempt, pc.id, SchedulingOf(s, pc.id)));
        Become(s, w, pc.(tx := pc.tx.(confession := Some(c)), stage := Inserted))
    case Inserted =>
      if !ok then Become(s, w, pc.(stage := Caught))
      else Become(s, w, pc.(tx := pc.tx.(draft := Some(Save(pc.draft, PostedBy(pc.draft)))), stage := Written))
    case Written => if ok then Commit(s, w) else Rollback(s, w)
    case Caught =>
      if !ok then Rollback(s, w)
      else
        var counted := pc.draft.(publishAttempts := pc.draft.publishAttempts + 1, lastPublishError := Some("error"));
        Become(s, w, pc.(tx := pc.tx.(draft := Some(Save(pc.draft, counted))), stage := Rethrown))
    case Rethrown => Rollback(s, w)
  }

  function WorkerStep(s: State, w: WorkerId, ok: bool): State
    requires w in s.workers
  {
    match s.workers[w]
    case Idle => s
    case Wanting(id, attempt) => Lock(s, w, id, attempt)
    case Open(_, _, _, _, _) => TransactionStep(s, w, ok)
  }

  // ---- Requests of users ---------------------------------------------------

  /** The rows that a request may write. */
  predicate Writes(s: State, user: UserId, r: Drafts.Request, id: DraftId) {
    match r
    case Create(_, _, _, _) => false
    case DeleteAll => id in s.server.drafts && s.server.drafts[id].userId == user
    case _ => id == r.id
  }

  predicate Blocked(s: State, user: UserId, r: Drafts.Request) {
    exists id | id in s.locks :: Writes(s, user, r, id)
  }

  predicate StartsScheduling(r: Drafts.Request, a: Answer) {
    a.Saved? && (r.Schedule? || (r.Create? && a.draft.status == Scheduled))
  }

  function TakeRequest(s: State, user: UserId, r: Drafts.Request): State {
    if Blocked(s, user, r) then s
    else
      var (server, a) := Serve(s.server, user, r);
      s.(server := server,
         confessions := s.confessions + (if a.Published? then [Confession(a.message, ByUser(a.id))] else []),
         schedulings := if StartsScheduling(r, a) then s.schedulings[a.id := SchedulingOf(s, a.id) + 1] else s.schedulings)
  }

  function Step(s: State, e: Event): State {
    match e
    case Begin(w, id) =>
      if w in s.workers && !s.workers[w].Idle? then s
      else Become(s.(nextAttempt := s.nextAttempt + 1), w, Wanting(id, s.nextAttempt))
    case Act(w, ok) => if w in s.workers then WorkerStep(s, w, ok) else s
    case Crash(w) => if w in s.workers then Rollback(s, w) else s
    case Request(user, r) => TakeRequest(s, user, r)
    case Elapse(ms) => s.(server := s.server.(now := s.server.now + ms))
  }

  function Run(s: State, trace: seq<Event>): State
    decreases |trace|
  {
    if trace == [] then s else Run(Step(s, trace[0]), trace[1..])
  }

  ghost predicate Initial(s: State) {
    && s.confessions == [] && s.moves == [] && s.locks == map[] && s.workers == map[]
    && IdsUsed(s.server)
    && (forall id | id in s.schedulings :: id < s.server.nextId)
    && forall id | id in s.server.drafts :: NeverFailed(s.server.drafts[id])
  }

  // ---- The invariant -------------------------------------------------------

  predicate NeverFailed(d: Draft) {
    d.publishAttempts == 0 && d.lastPublishError == None
  }

  ghost predicate TxOk(s: State, pc: Pc)
    requires pc.Open?
  {
    var c := Some(Confession(pc.draft.content, ByWorker(pc.attempt, pc.id, SchedulingOf(s, pc.id))));
    match pc.stage
    case Fresh => pc.tx == Tx(None, None)
    case Inserted => pc.tx == Tx(c, None) && Due(pc.draft, s.server.now)
    case Written => pc.tx == Tx(c, Some(Save(pc.draft, PostedBy(pc.draft)))) && Due(pc.draft, s.server.now)
    case _ => true
  }

  ghost predicate WorkerOk(s: State, w: WorkerId)
    requires w in s.workers
  {
    var pc := s.workers[w];
    && (!pc.Idle? ==> pc.attempt < s.nextAttempt)
    && (pc.Open? ==>
          && pc.id in s.locks && s.locks[pc.id] == w
          && pc.id in s.server.drafts && s.server.drafts[pc.id] == pc.draft
          && TxOk(s, pc))
  }

  ghost predicate LockOk(s: State, id: DraftId)
    requires id in s.locks
  {
    var w := s.locks[id];
    w in s.workers && s.workers[w].Open? && s.workers[w].id == id
  }

  /** A scheduling that has been published is over. */
  ghost predicate OriginOk(s: State, c: Confession) {
    c.origin.ByWorker? ==>
      var o := c.origin;
      && o.scheduling <= SchedulingOf(s, o.draft)
      && o.draft < s.server.nextId
      && (o.draft in s.server.drafts && s.server.drafts[o.draft].status == Scheduled
          ==> o.scheduling < SchedulingOf(s, o.draft))
  }

  ghost predicate InOrder(a: Confession, b: Confession) {
    a.origin.ByWorker? && b.origin.ByWorker? && a.origin.draft == b.origin.draft
    ==> a.origin.scheduling < b.origin.scheduling
  }

  ghost predicate ConfessionsOk(s: State) {
    && (forall i | 0 <= i < |s.confessions| :: OriginOk(s, s.confessions[i]))
    && (forall i, j | 0 <= i < j < |s.confessions| :: InOrder(s.confessions[i], s.confessions[j]))
  }

  /** The confessions of workers, in order. */
  function FromWorkers(cs: seq<Confession>): seq<Confession> {
    if cs == [] then []
    else FromWorkers(cs[..|cs| - 1]) + (if cs[|cs| - 1].origin.ByWorker? then [cs[|cs| - 1]] else [])
  }

  predicate Matches(m: Move, c: Confession) {
    && c == Confession(m.content, ByWorker(m.attempt, m.draft, m.scheduling))
    && m.due.Some? && m.due.value <= m.at
  }

  ghost predicate MovesOk(s: State) {
    var cs := FromWorkers(s.confessions);
    |s.moves| == |cs| && forall i | 0 <= i < |cs| :: Matches(s.moves[i], cs[i])
  }

  ghost predicate Inv(s: State) {
    && IdsUsed(s.server)
    && (forall id | id in s.schedulings :: id < s.server.nextId)
    && (forall w | w in s.workers :: WorkerOk(s, w))
    && (forall id | id in s.locks :: LockOk(s, id))
    && (forall id | id in s.server.drafts :: NeverFailed(s.server.drafts[id]))
    && ConfessionsOk(s)
    && MovesOk(s)
  }
}
