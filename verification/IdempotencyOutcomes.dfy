/**
  What a call answers, said on the record it finds: what becomes of a call that
  runs with nobody in between, and of a waiter that wakes up.
 */
module IdempotencyOutcomes {
  import opened Options
  import opened IdempotencyProtocol

  /** Only the call of client `c` runs; time may pass at any moment. */
  ghost predicate Alone(trace: seq<Event>, c: ClientId) {
    forall e | e in trace :: !e.Crash? && (e.Act? ==> e.c == c)
  }

  ghost predicate Begins(s: State, c: ClientId) {
    c in s.clients && s.clients[c].pc == Start && !s.clients[c].crashed
  }

  /** The key is the caller's to take: it has no record, or that of a failed attempt at the same payload. */
  predicate Free(s: State, c: ClientId)
    requires c in s.clients
  {
    var key := s.clients[c].key;
    key !in s.records || (s.records[key].status == Failed && s.records[key].hash == s.clients[c].hash)
  }

  /** The record of the key is for another payload. */
  predicate Differs(s: State, c: ClientId)
    requires c in s.clients
  {
    var key := s.clients[c].key;
    key in s.records && s.records[key].hash != s.clients[c].hash
  }

  /** The record is for the same payload and has an answer. */
  predicate Answered(s: State, c: ClientId)
    requires c in s.clients
  {
    var key := s.clients[c].key;
    && key in s.records && s.records[key].hash == s.clients[c].hash
    && s.records[key].status == Completed && s.records[key].body.Some?
  }

  /** The confession that the record names, if it is still there. */
  function Named(s: State, c: ClientId): Option<ConfessionId>
    requires c in s.clients && s.clients[c].key in s.records
  {
    var id := s.records[s.clients[c].key].confession;
    if id.Some? && id.value in s.rows then id else None
  }

  /** The caller has taken the key. */
  predicate Taken(s: State, c: ClientId)
    requires c in s.clients
  {
    var key := s.clients[c].key;
    key in s.records && s.records[key].status == Processing && s.records[key].hash == s.clients[c].hash
  }

  /** What `check` comes to between `s` and `t` when nobody interferes. */
  ghost predicate Checked(s: State, t: State, c: ClientId)
    requires c in s.clients && c in t.clients
  {
    var pc := t.clients[c].pc;
    && t.clients[c].key == s.clients[c].key && t.clients[c].hash == s.clients[c].hash
    && t.rows == s.rows
    && (if Free(s, c) then pc == Creating && Taken(t, c)
        else
          && t.records == s.records
          && (if Differs(s, c) then pc == Returned(Conflict)
              else if Answered(s, c) then pc == Returned(Replay(Named(s, c)))
              else pc == Returned(Unavailable) && t.now >= s.now + 5000))
  }

  // ---- Where a call can stand that is alone --------------------------------

  ghost predicate SameClient(s: State, t: State, c: ClientId) {
    && c in s.clients && c in t.clients && !t.clients[c].crashed && s.now <= t.now
    && t.clients[c].key == s.clients[c].key && t.clients[c].hash == s.clients[c].hash
  }

  ghost predicate Unchanged(s: State, t: State) {
    t.records == s.records && t.rows == s.rows
  }

  /** On the way to take the key, or past it. */
  ghost predicate FreeCourse(s: State, t: State, c: ClientId)
    requires SameClient(s, t, c)
  {
    var pc := t.clients[c].pc;
    || (Unchanged(s, t) && (pc == Start || (s.clients[c].key in s.records && (pc == Existing || pc == Claiming([])))))
    || (pc == Creating && Taken(t, c) && t.rows == s.rows)
    || pc.Failing? || pc.Committing?
    || (pc.Returned? && (pc.outcome.Created? || pc.outcome.CreateFailed?))
  }

  ghost predicate DiffersCourse(s: State, t: State, c: ClientId)
    requires SameClient(s, t, c)
  {
    Unchanged(s, t) && t.clients[c].pc in {Start, Existing, Returned(Conflict)}
  }

  ghost predicate AnsweredCourse(s: State, t: State, c: ClientId)
    requires SameClient(s, t, c) && s.clients[c].key in s.records
  {
    var named := s.records[s.clients[c].key].confession;
    Unchanged(s, t) && t.clients[c].pc in {Start, Existing, Fetching([], named), Returned(Replay(Named(s, c)))}
  }

  ghost predicate WaitingCourse(s: State, t: State, c: ClientId)
    requires SameClient(s, t, c)
  {
    var pc := t.clients[c].pc;
    && Unchanged(s, t)
    && (|| pc == Start || pc == Existing
        || ((pc.Looping? || pc.Sleeping?) && |pc.frames| == 1 && pc.frames[0] >= s.now + 5000)
        || (pc == Returned(Unavailable) && t.now >= s.now + 5000))
  }

  ghost predicate Course(s: State, t: State, c: ClientId) {
    && SameClient(s, t, c)
    && (if Free(s, c) then FreeCourse(s, t, c)
        else if Differs(s, c) then DiffersCourse(s, t, c)
        else if Answered(s, c) then AnsweredCourse(s, t, c)
        else WaitingCourse(s, t, c))
  }

  lemma StepStaysFree(s: State, t: State, c: ClientId, w: Work)
    requires Course(s, t, c) && Free(s, c) && Enabled(t, c)
    ensures Course(s, Step(t, Act(c, w)), c)
  {
  }

  lemma StepStaysOpen(s: State, t: State, c: ClientId, w: Work)
    requires Course(s, t, c) && !Free(s, c) && Enabled(t, c)
    ensures Course(s, Step(t, Act(c, w)), c)
  {
  }

  lemma {:induction false} CourseKept(s: State, t: State, c: ClientId, trace: seq<Event>)
    requires Course(s, t, c) && Alone(trace, c)
    ensures Course(s, Run(t, trace), c)
    decreases |trace|
  {
    if trace != [] {
      var e := trace[0];
      assert e in trace;
      if e.Act? && Enabled(t, c) {
        if Free(s, c) { StepStaysFree(s, t, c, e.work); } else { StepStaysOpen(s, t, c, e.work); }
      }
      CourseKept(s, Step(t, e), c, trace[1..]);
    }
  }

  /** Whenever `check` is over, after whatever pauses, it has come to what the record asks for. */
  lemma LoneCheck(s: State, c: ClientId, trace: seq<Event>)
    requires Begins(s, c) && Alone(trace, c)
    ensures var t := Run(s, trace);
            c in t.clients && var pc := t.clients[c].pc;
            pc == Creating || (pc.Returned? && !pc.outcome.Created? && !pc.outcome.CreateFailed?) ==> Checked(s, t, c)
  {
    CourseKept(s, s, c, trace);
  }

  // ---- A whole call ---------------------------------------------------------

  /** The next step of the call, taken once its sleep is over. */
  function Onward(s: State, c: ClientId, w: Work): seq<Event>
    requires c in s.clients
  {
    var pc := s.clients[c].pc;
    (if pc.Sleeping? && s.now < pc.wake then [Elapse(pc.wake - s.now)] else []) + [Act(c, w)]
  }

  /** `n` steps of the call, each as soon as it can be taken. */
  function Patiently(s: State, c: ClientId, w: Work, n: nat): seq<Event>
    requires c in s.clients
    decreases n
  {
    if n == 0 then []
    else
      var next := Onward(s, c, w);
      CallStays(s, c, next);
      next + Patiently(Run(s, next), c, w, n - 1)
  }

  lemma {:induction false} CallStays(s: State, c: ClientId, trace: seq<Event>)
    requires c in s.clients
    ensures c in Run(s, trace).clients
    decreases |trace|
  {
    if trace != [] { CallStays(Step(s, trace[0]), c, trace[1..]); }
  }

  /** The state after them. */
  function Later(s: State, c: ClientId, w: Work, n: nat): State
    requires c in s.clients
  {
    Run(s, Patiently(s, c, w, n))
  }

  lemma {:induction false} PatientlyIsAlone(s: State, c: ClientId, w: Work, n: nat)
    requires c in s.clients
    ensures Alone(Patiently(s, c, w, n), c)
    decreases n
  {
    if n > 0 {
      CallStays(s, c, Onward(s, c, w));
      PatientlyIsAlone(Run(s, Onward(s, c, w)), c, w, n - 1);
    }
  }

  /** What one such step does. */
  function Awake(s: State, c: ClientId): State
    requires c in s.clients
  {
    var pc := s.clients[c].pc;
    if pc.Sleeping? && s.now < pc.wake then s.(now := pc.wake) else s
  }

  lemma OneStep(s: State, c: ClientId, w: Work, n: nat)
    requires c in s.clients && n > 0
    ensures c in Step(Awake(s, c), Act(c, w)).clients
    ensures Later(s, c, w, n) == Later(Step(Awake(s, c), Act(c, w)), c, w, n - 1)
  {
    var next := Onward(s, c, w);
    var t := Step(Awake(s, c), Act(c, w));
    assert Run(s, next) == t by {
      if |next| == 2 {
        assert next[1..] == [Act(c, w)] && Run(Awake(s, c), next[1..]) == Run(t, []);
      } else {
        assert Run(s, next) == Run(t, []);
      }
    }
    RunConcat(s, next, Patiently(t, c, w, n - 1));
  }

  lemma {:induction false} Over(s: State, c: ClientId, w: Work, n: nat)
    requires c in s.clients && s.clients[c].pc.Returned?
    ensures Later(s, c, w, n) == s
    decreases n
  {
    if n > 0 {
      OneStep(s, c, w, n);
      Over(s, c, w, n - 1);
    }
  }

  /** What the creation and its commit come to, from the moment the key is taken. */
  ghost predicate Creates(s: State, t: State, c: ClientId, w: Work)
    requires c in s.clients && c in t.clients
  {
    var key, hash, pc := s.clients[c].key, s.clients[c].hash, t.clients[c].pc;
    var inserts := w.Inserts? && w.id !in s.rows && forall id | id in s.rows :: s.rows[id].key != Some(key);
    && t.rows == (if inserts then s.rows[w.id := Confession(Some(key), hash)] else s.rows)
    && key in t.records && t.records[key].hash == hash
    && (if inserts && !w.raises then
          && pc == Returned(Created(w.id))
          && t.records[key] == Record(hash, Completed, Some(w.id), Some(Response(w.id, hash.message)))
        else
          && pc == Returned(CreateFailed)
          && t.records[key].status == Failed)
  }

  lemma CreationCreates(s: State, c: ClientId, w: Work)
    requires c in s.clients && s.clients[c].pc == Creating && !s.clients[c].crashed && Taken(s, c)
    ensures var t := Step(Step(s, Act(c, w)), Act(c, w)); c in t.clients && Creates(s, t, c, w)
  {
    assert KeyTaken(s, s.clients[c].key) <==> exists id | id in s.rows :: s.rows[id].key == Some(s.clients[c].key);
  }

  lemma LoneCreation(s: State, c: ClientId, w: Work, n: nat)
    requires c in s.clients && s.clients[c].pc == Creating && !s.clients[c].crashed && Taken(s, c) && n >= 2
    ensures var t := Later(s, c, w, n); c in t.clients && Creates(s, t, c, w)
  {
    OneStep(s, c, w, n);
    var t1 := Step(s, Act(c, w));
    OneStep(t1, c, w, n - 1);
    var t2 := Step(t1, Act(c, w));
    Over(t2, c, w, n - 2);
    CreationCreates(s, c, w);
  }

  lemma LoneFree(s: State, c: ClientId, w: Work, n: nat)
    requires Begins(s, c) && Free(s, c) && n >= 5
    ensures var t := Later(s, c, w, n); c in t.clients && Creates(s, t, c, w)
  {
    OneStep(s, c, w, n);
    var t1 := Step(s, Act(c, w));
    if s.clients[c].key !in s.records {
      LoneCreation(t1, c, w, n - 1);
    } else {
      OneStep(t1, c, w, n - 1);
      var t2 := Step(t1, Act(c, w));
      OneStep(t2, c, w, n - 2);
      var t3 := Step(t2, Act(c, w));
      LoneCreation(t3, c, w, n - 3);
    }
  }

  /** The record is being processed, as far as anyone can tell. */
  predicate Pending(s: State, c: ClientId)
    requires c in s.clients
  {
    && s.clients[c].key in s.records && !Free(s, c) && !Differs(s, c) && !Answered(s, c)
  }

  lemma {:induction false} LoneWait(s: State, c: ClientId, w: Work, n: nat, left: nat)
    requires c in s.clients && !s.clients[c].crashed && Pending(s, c)
    requires s.clients[c].pc == Looping([s.now + 100 * left]) && n > 2 * left
    ensures var t := Later(s, c, w, n);
            && c in t.clients && t.clients[c] == s.clients[c].(pc := Returned(Unavailable))
            && t.now == s.now + 100 * left && Unchanged(s, t)
    decreases left
  {
    OneStep(s, c, w, n);
    var t1 := Step(s, Act(c, w));
    if left == 0 {
      Over(t1, c, w, n - 1);
    } else {
      OneStep(t1, c, w, n - 1);
      var t2 := Step(Awake(t1, c), Act(c, w));
      assert t2.clients[c].pc == Looping([t2.now + 100 * (left - 1)]);
      LoneWait(t2, c, w, n - 2, left - 1);
    }
  }

  lemma LonePending(s: State, c: ClientId, w: Work, n: nat)
    requires Begins(s, c) && Pending(s, c) && n > 102
    ensures var t := Later(s, c, w, n);
            c in t.clients && Checked(s, t, c) && t.now == s.now + 5000
  {
    OneStep(s, c, w, n);
    var t1 := Step(s, Act(c, w));
    OneStep(t1, c, w, n - 1);
    var t2 := Step(t1, Act(c, w));
    assert t2.clients[c].pc == Looping([t2.now + 100 * 50]);
    LoneWait(t2, c, w, n - 2, 50);
  }

  lemma LoneAnswered(s: State, c: ClientId, w: Work, n: nat)
    requires Begins(s, c) && (Differs(s, c) || Answered(s, c)) && n >= 3
    ensures var t := Later(s, c, w, n);
            c in t.clients && Checked(s, t, c) && t.now == s.now
  {
    OneStep(s, c, w, n);
    var t1 := Step(s, Act(c, w));
    OneStep(t1, c, w, n - 1);
    var t2 := Step(t1, Act(c, w));
    if Differs(s, c) {
      Over(t2, c, w, n - 2);
    } else {
      OneStep(t2, c, w, n - 2);
      Over(Step(t2, Act(c, w)), c, w, n - 3);
    }
  }

  // ---- Main results --------------------------------------------------------

  /**
    A call that runs alone has returned after 103 steps.  A key without a record,
    and one whose attempt failed with the same payload, lets it create its
    confession; another payload gets a conflict, a completed record its
    confession, and only a record in processing makes it give up, five seconds
    later.
   */
  lemma LoneCall(s: State, c: ClientId, w: Work, n: nat)
    requires Begins(s, c) && n > 102
    ensures var t := Later(s, c, w, n);
            && c in t.clients && Alone(Patiently(s, c, w, n), c)
            && (if Free(s, c) then Creates(s, t, c, w)
                else Checked(s, t, c) && t.now == s.now + (if Pending(s, c) then 5000 else 0))
  {
    PatientlyIsAlone(s, c, w, n);
    if Free(s, c) { LoneFree(s, c, w, n); }
    else if Pending(s, c) { LonePending(s, c, w, n); }
    else { LoneAnswered(s, c, w, n); }
  }

  /** In every reachable state the answer of a completed record is the confession that it names. */
  lemma ReplayNamesTheConfession(s: State, c: ClientId, t: State)
    requires Inv(s) && Begins(s, c) && c in t.clients && Checked(s, t, c)
    requires s.clients[c].key in s.records
    requires var r := s.records[s.clients[c].key]; r.hash == s.clients[c].hash && r.status == Completed
    ensures var r := s.records[s.clients[c].key];
            r.confession.Some? && t.clients[c].pc == Returned(Replay(Some(r.confession.value)))
  {
    assert RecordOk(s, s.clients[c].key);
  }

  /**
    A waiter that wakes up, in however many waits, claims a failed record, brings
    a completed one home or to the wait around it, and waits on for one that is
    being processed.
   */
  lemma WaiterWakes(s: State, c: ClientId, w: Work)
    requires Enabled(s, c) && s.clients[c].pc.Sleeping? && s.clients[c].pc.frames != []
    requires s.clients[c].key in s.records
    ensures var frames, r := s.clients[c].pc.frames, s.records[s.clients[c].key];
            var t := Run(s, [Act(c, w), Act(c, w)]);
            && c in t.clients && t.now == s.now && t.rows == s.rows
            && (if Free(s, c) then t.clients[c].pc == Creating && Taken(t, c)
                else
                  && t.records == s.records
                  && t.clients[c].pc ==
                     if Differs(s, c) then Returned(Conflict)
                     else if Answered(s, c) then
                       if |frames| == 1 then Returned(Replay(Named(s, c))) else Looping(frames[..|frames| - 1])
                     else if s.now < frames[|frames| - 1] then Sleeping(frames, s.now + 100)
                     else Returned(Unavailable))
  {
    var t1 := Step(s, Act(c, w));
    var t2 := Step(t1, Act(c, w));
    assert Run(t1, [Act(c, w)]) == Run(t2, []);
    assert Run(s, [Act(c, w), Act(c, w)]) == Run(t1, [Act(c, w)]);
  }

  /** A claim that another client won in the meantime makes the caller wait for five more seconds at most. */
  lemma LostClaimWaits(s: State, c: ClientId, w: Work)
    requires Enabled(s, c) && s.clients[c].pc.Claiming?
    requires s.clients[c].key in s.records && s.records[s.clients[c].key].status != Failed
    ensures var t := Step(s, Act(c, w));
            && c in t.clients && Unchanged(s, t)
            && t.clients[c].pc == Looping(s.clients[c].pc.frames + [s.now + 5000])
  {
  }
}
