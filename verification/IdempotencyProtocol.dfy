/**
  The idempotent confession creation protocol, as a step relation.

  Any number of clients, on any number of scoped keys, run
  `ConfessionService.create` against one table of idempotency records and one
  table of confessions.  One step is what a client does between two awaits, so
  every read, insert and conditional update of the database is atomic and
  everything else interleaves.  A client may crash at any point; a database
  error that aborts a call looks like a crash before or after the statement.
 */
module IdempotencyProtocol {
  import opened Options
  import opened CanonicalPayload

  type ClientId = nat
  type ConfessionId = nat
  type Key = string

  const POLL_INTERVAL_MS: nat := 100
  const MAX_WAIT_MS: nat := 5000

  datatype Status = Processing | Completed | Failed

  datatype Response = Response(id: ConfessionId, message: string)

  datatype Record = Record(
    hash: Canonical,
    status: Status,
    confession: Option<ConfessionId>,
    body: Option<Response>)

  /** A row of the confession table; the key column is unique where present. */
  datatype Confession = Confession(key: Option<Key>, content: Canonical)

  datatype Outcome =
    | Created(id: ConfessionId)
    | CreateFailed
    | Replay(confession: Option<ConfessionId>)
    | Conflict
    | Unavailable

  /**
    Where a client stands between two awaits.  `frames` are the deadlines of the
    enclosing `waitForProcessing` loops, outermost first: a wait calls a claim,
    and a lost claim calls another wait.
   */
  datatype Pc =
    | Start
    | Existing
    | Claiming(frames: seq<nat>)
    | Looping(frames: seq<nat>)
    | Sleeping(frames: seq<nat>, wake: nat)
    | Fetching(frames: seq<nat>, confession: Option<ConfessionId>)
    | Creating
    | Failing
    | Committing(id: ConfessionId)
    | Returned(outcome: Outcome)

  datatype Client = Client(key: Key, hash: Canonical, pc: Pc, crashed: bool)

  datatype State = State(
    records: map<Key, Record>,
    rows: map<ConfessionId, Confession>,
    clients: map<ClientId, Client>,
    now: nat)
  {
    function At(c: ClientId, pc: Pc): State
      requires c in clients
    {
      this.(clients := clients[c := clients[c].(pc := pc)])
    }
  }

  /** What `executeCreate` does: fail early, or insert a row and then return or throw. */
  datatype Work = Aborts | Inserts(id: ConfessionId, raises: bool)

  datatype Event = Act(c: ClientId, work: Work) | Crash(c: ClientId) | Elapse(ms: nat)

  // ---- The steps -----------------------------------------------------------

  function TryInsert(s: State, c: ClientId): State
    requires c in s.clients
  {
    var cl := s.clients[c];
    if cl.key in s.records then s.At(c, Existing)
    else s.(records := s.records[cl.key := Record(cl.hash, Processing, None, None)]).At(c, Creating)
  }

  function HandleExisting(s: State, c: ClientId): State
    requires c in s.clients
  {
    var cl := s.clients[c];
    if cl.key !in s.records then s.At(c, Returned(Unavailable))
    else
      var r := s.records[cl.key];
      if r.hash != cl.hash then s.At(c, Returned(Conflict))
      else if r.status == Completed && r.body.Some? then s.At(c, Fetching([], r.confession))
      else if r.status == Failed then s.At(c, Claiming([]))
      else s.At(c, Looping([s.now + MAX_WAIT_MS]))
  }

  /** The conditional update from 'failed' to 'processing'; a loser opens a wait of its own. */
  function ClaimFailed(s: State, c: ClientId, frames: seq<nat>): State
    requires c in s.clients
  {
    var cl := s.clients[c];
    if cl.key in s.records && s.records[cl.key].status == Failed then
      s.(records := s.records[cl.key := s.records[cl.key].(status := Processing, hash := cl.hash)]).At(c, Creating)
    else
      s.At(c, Looping(frames + [s.now + MAX_WAIT_MS]))
  }

  function LoopTop(s: State, c: ClientId, frames: seq<nat>): State
    requires c in s.clients && frames != []
  {
    if s.now < frames[|frames| - 1] then s.At(c, Sleeping(frames, s.now + POLL_INTERVAL_MS))
    else s.At(c, Returned(Unavailable))
  }

  function Poll(s: State, c: ClientId, frames: seq<nat>): State
    requires c in s.clients
  {
    var cl := s.clients[c];
    if cl.key !in s.records then s.At(c, Returned(Unavailable))
    else
      var r := s.records[cl.key];
      if r.hash != cl.hash then s.At(c, Returned(Conflict))
      else if r.status == Completed && r.body.Some? then s.At(c, Fetching(frames, r.confession))
      else if r.status == Failed then s.At(c, Claiming(frames))
      else s.At(c, Looping(frames))
  }

  /** A replay found by a nested wait only ends that wait: the enclosing loop polls again. */
  function FinishReplay(s: State, c: ClientId, frames: seq<nat>, confession: Option<ConfessionId>): State
    requires c in s.clients
  {
    if |frames| > 1 then s.At(c, Looping(frames[..|frames| - 1]))
    else s.At(c, Returned(Replay(if confession.Some? && confession.value in s.rows then confession else None)))
  }

  predicate KeyTaken(s: State, k: Key) {
    exists id | id in s.rows :: s.rows[id].key == Some(k)
  }

  function ExecuteCreate(s: State, c: ClientId, w: Work): State
    requires c in s.clients
  {
    var cl := s.clients[c];
    if w.Aborts? || w.id in s.rows || KeyTaken(s, cl.key) then s.At(c, Failing)
    else
      s.(rows := s.rows[w.id := Confession(Some(cl.key), cl.hash)])
      .At(c, if w.raises then Failing else Committing(w.id))
  }

  /** Updates by id, whatever the status is. */
  function CommitFailure(s: State, c: ClientId): State
    requires c in s.clients
  {
    var k := s.clients[c].key;
    (if k in s.records then s.(records := s.records[k := s.records[k].(status := Failed)]) else s)
    .At(c, Returned(CreateFailed))
  }

  /** Updates by id, whatever the status is. */
  function CommitSuccess(s: State, c: ClientId, id: ConfessionId): State
    requires c in s.clients
  {
    var cl := s.clients[c];
    (if cl.key in s.records then
       s.(records := s.records[cl.key :=
            s.records[cl.key].(status := Completed, confession := Some(id),
                               body := Some(Response(id, cl.hash.message)))])
     else s)
    .At(c, Returned(Created(id)))
  }

  predicate Enabled(s: State, c: ClientId) {
    && c in s.clients
    && !s.clients[c].crashed
    && !s.clients[c].pc.Returned?
    && (s.clients[c].pc.Sleeping? ==> s.clients[c].pc.wake <= s.now)
    && (s.clients[c].pc.Looping? ==> s.clients[c].pc.frames != [])
  }

  function ClientStep(s: State, c: ClientId, w: Work): State
    requires Enabled(s, c)
  {
    match s.clients[c].pc
    case Start => TryInsert(s, c)
    case Existing => HandleExisting(s, c)
    case Claiming(frames) => ClaimFailed(s, c, frames)
    case Looping(frames) => LoopTop(s, c, frames)
    case Sleeping(frames, _) => Poll(s, c, frames)
    case Fetching(frames, confession) => FinishReplay(s, c, frames, confession)
    case Creating => ExecuteCreate(s, c, w)
    case Failing => CommitFailure(s, c)
    case Committing(id) => CommitSuccess(s, c, id)
    case Returned(_) => s
  }

  function Step(s: State, e: Event): State {
    match e
    case Act(c, w) => if Enabled(s, c) then ClientStep(s, c, w) else s
    case Crash(c) => if c in s.clients then s.(clients := s.clients[c := s.clients[c].(crashed := true)]) else s
    case Elapse(ms) => s.(now := s.now + ms)
  }

  function Run(s: State, trace: seq<Event>): State
    decreases |trace|
  {
    if trace == [] then s else Run(Step(s, trace[0]), trace[1..])
  }

  lemma RunConcat(s: State, a: seq<Event>, b: seq<Event>)
    ensures Run(s, a + b) == Run(Run(s, a), b)
    decreases |a|
  {
    if a == [] {
      assert a + b == b;
    } else {
      assert (a + b)[1..] == a[1..] + b;
      RunConcat(Step(s, a[0]), a[1..], b);
    }
  }

  /** Every client is about to call `create`; the confessions that exist were made without a key. */
  ghost predicate Initial(s: State) {
    && s.records == map[]
    && (forall id | id in s.rows :: s.rows[id].key == None)
    && (forall c | c in s.clients :: s.clients[c].pc == Start)
  }

  // ---- The invariant -------------------------------------------------------

  /** Owning an attempt: the insert or the claim was won and neither commit has run. */
  predicate Owns(pc: Pc) {
    pc.Creating? || pc.Failing? || pc.Committing?
  }

  ghost predicate Owner(s: State, c: ClientId, k: Key) {
    c in s.clients && s.clients[c].key == k && Owns(s.clients[c].pc)
  }

  ghost predicate ClientOk(s: State, c: ClientId)
    requires c in s.clients
  {
    var cl := s.clients[c];
    !cl.pc.Start? ==>
      && cl.key in s.records
      && var r := s.records[cl.key];
      && (cl.pc.Returned? && cl.pc.outcome.Conflict? ==> r.hash != cl.hash)
      && (!cl.pc.Existing? && cl.pc != Returned(Conflict) ==> r.hash == cl.hash)
      && (cl.pc.Looping? || cl.pc.Sleeping? ==> cl.pc.frames != [])
      && (Owns(cl.pc) ==> r.status == Processing)
      && (cl.pc.Committing? ==> cl.pc.id in s.rows && s.rows[cl.pc.id].key == Some(cl.key))
      && (cl.pc.Fetching? ==> r.status == Completed && cl.pc.confession == r.confession)
      && (cl.pc.Returned? && cl.pc.outcome.Replay? ==>
            r.status == Completed && r.confession.Some? && cl.pc.outcome.confession == r.confession)
      && (cl.pc.Returned? && cl.pc.outcome.Created? ==>
            r.status == Completed && r.confession == Some(cl.pc.outcome.id))
  }

  ghost predicate RecordOk(s: State, k: Key)
    requires k in s.records
  {
    var r := s.records[k];
    && (r.status == Processing ==> exists c :: Owner(s, c, k))
    && (if r.status == Completed then
          && r.confession.Some?
          && r.confession.value in s.rows
          && s.rows[r.confession.value].key == Some(k)
          && r.body == Some(Response(r.confession.value, r.hash.message))
        else r.confession == None && r.body == None)
  }

  ghost predicate RowsOk(s: State) {
    && (forall id | id in s.rows && s.rows[id].key.Some? ::
          && s.rows[id].key.value in s.records
          && s.rows[id].content == s.records[s.rows[id].key.value].hash)
    && (forall i, j | i in s.rows && j in s.rows && s.rows[i].key.Some? && s.rows[i].key == s.rows[j].key :: i == j)
  }

  ghost predicate SoleOwners(s: State) {
    forall c, d | c in s.clients && d in s.clients && s.clients[c].key == s.clients[d].key
      :: Owns(s.clients[c].pc) && Owns(s.clients[d].pc) ==> c == d
  }

  ghost predicate Inv(s: State) {
    && (forall c | c in s.clients :: ClientOk(s, c))
    && (forall k | k in s.records :: RecordOk(s, k))
    && RowsOk(s)
    && SoleOwners(s)
  }

  lemma InitialInv(s: State)
    requires Initial(s)
    ensures Inv(s)
  {
  }

  /** Nothing a step can do loses a record, changes its hash, or undoes a completion. */
  ghost predicate Preserved(s: State, t: State) {
    && (forall k | k in s.records ::
          && k in t.records
          && t.records[k].hash == s.records[k].hash
          && (s.records[k].status == Completed ==> t.records[k] == s.records[k]))
    && (forall id | id in s.rows :: id in t.rows && t.rows[id] == s.rows[id])
    && (forall c | c in s.clients ::
          && c in t.clients
          && t.clients[c].key == s.clients[c].key
          && t.clients[c].hash == s.clients[c].hash
          && (s.clients[c].pc.Returned? ==> t.clients[c].pc == s.clients[c].pc))
    && s.now <= t.now
  }

  // ---- Every step keeps the invariant --------------------------------------

  /** From `s` to `t` only client `c`, the record of its key and rows of its key may change. */
  ghost predicate LocalChange(s: State, t: State, c: ClientId)
    requires c in s.clients
  {
    var k := s.clients[c].key;
    && s.now == t.now
    && t.clients.Keys == s.clients.Keys
    && (forall d | d in s.clients && d != c :: t.clients[d] == s.clients[d])
    && t.clients[c].key == k
    && t.clients[c].hash == s.clients[c].hash
    && k in t.records
    && t.records.Keys == s.records.Keys + {k}
    && (forall j | j in s.records && j != k :: t.records[j] == s.records[j])
    && (k in s.records ==>
          && t.records[k].hash == s.records[k].hash
          && (s.records[k].status == Completed ==> t.records[k] == s.records[k]))
    && (forall id | id in s.rows :: id in t.rows && t.rows[id] == s.rows[id])
  }

  /** A client that owns its key, or takes it, is the only one that does. */
  ghost predicate NoOtherOwner(s: State, c: ClientId)
    requires c in s.clients
  {
    forall d | d in s.clients && d != c && s.clients[d].key == s.clients[c].key :: !Owns(s.clients[d].pc)
  }

  ghost predicate Disciplined(s: State, t: State, c: ClientId)
    requires c in s.clients && c in t.clients
  {
    || NoOtherOwner(s, c)
    || (!Owns(t.clients[c].pc) && s.clients[c].key in s.records && t.records == s.records)
  }

  lemma OthersStayOk(s: State, t: State, c: ClientId, d: ClientId)
    requires Inv(s) && c in s.clients && LocalChange(s, t, c) && Disciplined(s, t, c)
    requires d in s.clients && d != c
    ensures ClientOk(t, d)
  {
    assert ClientOk(s, d);
  }

  lemma LocalChangeKeeps(s: State, t: State, c: ClientId)
    requires Inv(s) && c in s.clients && !s.clients[c].pc.Returned?
    requires LocalChange(s, t, c) && Disciplined(s, t, c)
    requires ClientOk(t, c) && RecordOk(t, s.clients[c].key) && RowsOk(t)
    ensures Inv(t) && Preserved(s, t)
  {
    forall k | k in t.records ensures RecordOk(t, k) {
      if k != s.clients[c].key {
        assert RecordOk(s, k);
        OtherOwner(s, t, c, k);
      }
    }
    forall d | d in t.clients && d != c ensures ClientOk(t, d) {
      OthersStayOk(s, t, c, d);
    }
  }

  /** A step of one client leaves the owners of every other key where they were. */
  lemma OtherOwner(s: State, t: State, c: ClientId, k: Key)
    requires c in s.clients && s.clients[c].key != k
    requires forall d | d in s.clients && d != c :: d in t.clients && t.clients[d] == s.clients[d]
    ensures (exists o :: Owner(s, o, k)) ==> (exists o :: Owner(t, o, k))
  {
    if o :| Owner(s, o, k) { assert Owner(t, o, k); }
  }

  lemma OwnersSurvive(s: State, t: State, k: Key)
    requires forall c | c in s.clients ::
               c in t.clients && t.clients[c].key == s.clients[c].key
               && (Owns(s.clients[c].pc) ==> t.clients[c].pc == s.clients[c].pc)
    ensures (exists o :: Owner(s, o, k)) ==> (exists o :: Owner(t, o, k))
  {
    if o :| Owner(s, o, k) { assert Owner(t, o, k); }
  }

  lemma QuietStepKeeps(s: State, c: ClientId, pc: Pc)
    requires Inv(s) && c in s.clients && !s.clients[c].pc.Returned?
    requires !Owns(s.clients[c].pc) && !Owns(pc)
    requires s.clients[c].key in s.records && ClientOk(s.At(c, pc), c)
    ensures Inv(s.At(c, pc)) && Preserved(s, s.At(c, pc))
  {
    var t := s.At(c, pc);
    var k := s.clients[c].key;
    assert RecordOk(s, k);
    OwnersSurvive(s, t, k);
    LocalChangeKeeps(s, t, c);
  }

  lemma TryInsertKeeps(s: State, c: ClientId)
    requires Inv(s) && Enabled(s, c) && s.clients[c].pc.Start?
    ensures Inv(TryInsert(s, c)) && Preserved(s, TryInsert(s, c))
  {
    var k := s.clients[c].key;
    if k in s.records {
      QuietStepKeeps(s, c, Existing);
    } else {
      var t := TryInsert(s, c);
      assert Owner(t, c, k);
      forall d | d in s.clients && s.clients[d].key == k ensures s.clients[d].pc.Start? {
        assert ClientOk(s, d);
      }
      LocalChangeKeeps(s, t, c);
    }
  }

  lemma ClaimWonKeeps(s: State, c: ClientId, frames: seq<nat>)
    requires Inv(s) && Enabled(s, c) && s.clients[c].pc == Claiming(frames)
    requires s.clients[c].key in s.records && s.records[s.clients[c].key].status == Failed
    ensures Inv(ClaimFailed(s, c, frames)) && Preserved(s, ClaimFailed(s, c, frames))
  {
    assert ClientOk(s, c);
    var k := s.clients[c].key;
    assert RecordOk(s, k);
    var t := ClaimFailed(s, c, frames);
    assert Owner(t, c, k);
    forall d | d in s.clients && s.clients[d].key == k ensures !Owns(s.clients[d].pc) {
      assert ClientOk(s, d);
    }
    LocalChangeKeeps(s, t, c);
  }

  lemma ClaimLostKeeps(s: State, c: ClientId, frames: seq<nat>)
    requires Inv(s) && Enabled(s, c) && s.clients[c].pc == Claiming(frames)
    requires s.clients[c].key in s.records && s.records[s.clients[c].key].status != Failed
    ensures Inv(ClaimFailed(s, c, frames)) && Preserved(s, ClaimFailed(s, c, frames))
  {
    assert ClientOk(s, c);
    QuietStepKeeps(s, c, ClaimFailed(s, c, frames).clients[c].pc);
  }

  lemma ClaimKeeps(s: State, c: ClientId, frames: seq<nat>)
    requires Inv(s) && Enabled(s, c) && s.clients[c].pc == Claiming(frames)
    ensures Inv(ClaimFailed(s, c, frames)) && Preserved(s, ClaimFailed(s, c, frames))
  {
    assert s.clients[c].key in s.records by { assert ClientOk(s, c); }
    if s.records[s.clients[c].key].status == Failed {
      ClaimWonKeeps(s, c, frames);
    } else {
      ClaimLostKeeps(s, c, frames);
    }
  }

  lemma ExecuteCreateKeeps(s: State, c: ClientId, w: Work)
    requires Inv(s) && Enabled(s, c) && s.clients[c].pc.Creating?
    ensures Inv(ExecuteCreate(s, c, w)) && Preserved(s, ExecuteCreate(s, c, w))
  {
    assert ClientOk(s, c);
    var k := s.clients[c].key;
    assert RecordOk(s, k);
    var t := ExecuteCreate(s, c, w);
    assert Owner(t, c, k);
    LocalChangeKeeps(s, t, c);
  }

  lemma CommitFailureKeeps(s: State, c: ClientId)
    requires Inv(s) && Enabled(s, c) && s.clients[c].pc.Failing?
    ensures Inv(CommitFailure(s, c)) && Preserved(s, CommitFailure(s, c))
  {
    assert ClientOk(s, c);
    assert RecordOk(s, s.clients[c].key);
    LocalChangeKeeps(s, CommitFailure(s, c), c);
  }

  lemma CommitSuccessKeeps(s: State, c: ClientId, id: ConfessionId)
    requires Inv(s) && Enabled(s, c) && s.clients[c].pc == Committing(id)
    ensures Inv(CommitSuccess(s, c, id)) && Preserved(s, CommitSuccess(s, c, id))
  {
    assert ClientOk(s, c);
    assert RecordOk(s, s.clients[c].key);
    LocalChangeKeeps(s, CommitSuccess(s, c, id), c);
  }

  lemma HandleExistingKeeps(s: State, c: ClientId)
    requires Inv(s) && Enabled(s, c) && s.clients[c].pc.Existing?
    ensures Inv(HandleExisting(s, c)) && Preserved(s, HandleExisting(s, c))
  {
    assert ClientOk(s, c);
    QuietStepKeeps(s, c, HandleExisting(s, c).clients[c].pc);
  }

  lemma LoopTopKeeps(s: State, c: ClientId, frames: seq<nat>)
    requires Inv(s) && Enabled(s, c) && s.clients[c].pc == Looping(frames)
    ensures Inv(LoopTop(s, c, frames)) && Preserved(s, LoopTop(s, c, frames))
  {
    assert ClientOk(s, c);
    QuietStepKeeps(s, c, LoopTop(s, c, frames).clients[c].pc);
  }

  lemma PollKeeps(s: State, c: ClientId, frames: seq<nat>)
    requires Inv(s) && Enabled(s, c) && s.clients[c].pc.Sleeping? && s.clients[c].pc.frames == frames
    ensures Inv(Poll(s, c, frames)) && Preserved(s, Poll(s, c, frames))
  {
    assert ClientOk(s, c);
    QuietStepKeeps(s, c, Poll(s, c, frames).clients[c].pc);
  }

  lemma FinishReplayKeeps(s: State, c: ClientId, frames: seq<nat>, confession: Option<ConfessionId>)
    requires Inv(s) && Enabled(s, c) && s.clients[c].pc == Fetching(frames, confession)
    ensures Inv(FinishReplay(s, c, frames, confession)) && Preserved(s, FinishReplay(s, c, frames, confession))
  {
    assert ClientOk(s, c);
    assert RecordOk(s, s.clients[c].key);
    QuietStepKeeps(s, c, FinishReplay(s, c, frames, confession).clients[c].pc);
  }

  lemma ClientStepKeeps(s: State, c: ClientId, w: Work)
    requires Inv(s) && Enabled(s, c)
    ensures Inv(ClientStep(s, c, w)) && Preserved(s, ClientStep(s, c, w))
  {
    match s.clients[c].pc
    case Start => TryInsertKeeps(s, c);
    case Existing => HandleExistingKeeps(s, c);
    case Claiming(frames) => ClaimKeeps(s, c, frames);
    case Looping(frames) => LoopTopKeeps(s, c, frames);
    case Sleeping(frames, _) => PollKeeps(s, c, frames);
    case Fetching(frames, confession) => FinishReplayKeeps(s, c, frames, confession);
    case Creating => ExecuteCreateKeeps(s, c, w);
    case Failing => CommitFailureKeeps(s, c);
    case Committing(id) => CommitSuccessKeeps(s, c, id);
  }

  /** A step that moves no program counter and touches no table. */
  lemma IdleStepKeeps(s: State, t: State)
    requires Inv(s) && t.records == s.records && t.rows == s.rows && s.now <= t.now
    requires t.clients.Keys == s.clients.Keys
    requires forall c | c in s.clients :: t.clients[c] == s.clients[c].(crashed := t.clients[c].crashed)
    ensures Inv(t) && Preserved(s, t)
  {
    forall k | k in t.records ensures RecordOk(t, k) {
      assert RecordOk(s, k);
      OwnersSurvive(s, t, k);
    }
    forall c | c in t.clients ensures ClientOk(t, c) {
      assert ClientOk(s, c);
    }
  }

  lemma StepKeeps(s: State, e: Event)
    requires Inv(s)
    ensures Inv(Step(s, e)) && Preserved(s, Step(s, e))
  {
    match e
    case Act(c, w) => if Enabled(s, c) { ClientStepKeeps(s, c, w); }
    case Crash(_) => IdleStepKeeps(s, Step(s, e));
    case Elapse(_) => IdleStepKeeps(s, Step(s, e));
  }

  lemma {:induction false} RunKeeps(s: State, trace: seq<Event>)
    requires Inv(s)
    ensures Inv(Run(s, trace)) && Preserved(s, Run(s, trace))
    decreases |trace|
  {
    if trace != [] {
      StepKeeps(s, trace[0]);
      RunKeeps(Step(s, trace[0]), trace[1..]);
      var m := Step(s, trace[0]);
      PreservedTransitive(s, m, Run(m, trace[1..]));
    }
  }

  lemma PreservedTransitive(s: State, t: State, u: State)
    requires Preserved(s, t) && Preserved(t, u)
    ensures Preserved(s, u)
  {
  }
}
