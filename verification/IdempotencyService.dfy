/**
  `ConfessionIdempotencyService.check` and the owner side of
  `ConfessionService.create`, written as the imperative code they are.

  At every await other clients may run.  What they do there is given in advance
  by `schedule`: one batch of events for each await of this call, and nothing
  more once it is used up.  Each method is proved to take exactly the steps of
  the protocol, interleaved with the batches.
 */
module IdempotencyService {
  import opened Options
  import opened CanonicalPayload
  import opened IdempotencyProtocol
  import opened IdempotencyOutcomes

  datatype CheckResult =
    | Proceed
    | Replayed(confession: Option<ConfessionId>)
    | ConflictException
    | ServiceUnavailable

  /** The program counter a `check` result stands for, given the waits that still enclose it. */
  ghost predicate Lands(pc: Pc, r: CheckResult, outer: seq<nat>) {
    match r
    case Proceed => pc == Creating
    case Replayed(confession) => pc == (if outer == [] then Returned(Replay(confession)) else Looping(outer))
    case ConflictException => pc == Returned(Conflict)
    case ServiceUnavailable => pc == Returned(Unavailable)
  }

  ghost predicate LeavesAlone(batch: seq<Event>, c: ClientId) {
    forall e | e in batch :: (e.Act? ==> e.c != c) && (e.Crash? ==> e.c != c)
  }

  lemma {:induction false} OthersRun(s: State, batch: seq<Event>, c: ClientId)
    requires c in s.clients && LeavesAlone(batch, c)
    ensures var t := Run(s, batch); c in t.clients && t.clients[c] == s.clients[c] && s.now <= t.now
    decreases |batch|
  {
    if batch != [] {
      OthersRun(Step(s, batch[0]), batch[1..], c);
    }
  }

  lemma RunSnoc(s: State, trace: seq<Event>, e: Event)
    ensures Run(s, trace + [e]) == Step(Run(s, trace), e)
  {
    RunConcat(s, trace, [e]);
    assert Run(Run(s, trace), [e]) == Run(Step(Run(s, trace), e), []);
  }

  class ConfessionIdempotencyService {
    var records: map<Key, Record>
    var rows: map<ConfessionId, Confession>
    var clients: map<ClientId, Client>
    var now: nat
    var schedule: seq<seq<Event>>

    ghost function St(): State
      reads this
    {
      State(records, rows, clients, now)
    }

    /** The call of client `c` stands at `pc`, and only others are scheduled. */
    ghost predicate Running(c: ClientId, pc: Pc)
      reads this
    {
      && c in clients && clients[c].pc == pc && !clients[c].crashed
      && forall batch | batch in schedule :: LeavesAlone(batch, c)
    }

    method Apply(e: Event)
      modifies this
      ensures St() == Step(old(St()), e) && schedule == old(schedule)
    {
      var t := Step(State(records, rows, clients, now), e);
      records, rows, clients, now := t.records, t.rows, t.clients, t.now;
    }

    /** Gives the others the floor for one batch. */
    method Await(ghost c: ClientId, ghost pc: Pc) returns (ghost batch: seq<Event>)
      requires Running(c, pc)
      modifies this
      ensures Running(c, pc) && now >= old(now)
      ensures St() == Run(old(St()), batch)
      ensures old(schedule) == [] ==> batch == [] && schedule == []
      ensures old(schedule) != [] ==> schedule == old(schedule)[1..]
    {
      batch := [];
      if schedule != [] {
        var events := schedule[0];
        schedule := schedule[1..];
        batch := events;
        ghost var start, rest := St(), schedule;
        var i := 0;
        while i < |events|
          invariant 0 <= i <= |events| && schedule == rest
          invariant St() == Run(start, events[..i])
        {
          RunSnoc(start, events[..i], events[i]);
          assert events[..i + 1] == events[..i] + [events[i]];
          Apply(events[i]);
          i := i + 1;
        }
        assert events[..|events|] == events;
        OthersRun(start, events, c);
      }
    }

    method TryInsert(c: ClientId) returns (inserted: bool)
      requires Running(c, Start)
      modifies this`records, this`clients
      ensures St() == Step(old(St()), Act(c, Aborts))
      ensures Running(c, if inserted then Creating else Existing)
    {
      var key := clients[c].key;
      if key in records {
        clients := clients[c := clients[c].(pc := Existing)];
        return false;
      }
      records := records[key := Record(clients[c].hash, Processing, None, None)];
      clients := clients[c := clients[c].(pc := Creating)];
      return true;
    }

    method Check(c: ClientId) returns (r: CheckResult, ghost trace: seq<Event>)
      requires Running(c, Start)
      modifies this
      ensures St() == Run(old(St()), trace)
      ensures c in clients && Running(c, clients[c].pc) && Lands(clients[c].pc, r, [])
      ensures old(schedule) == [] ==> schedule == [] && Checked(old(St()), St(), c)
    {
      ghost var start := St();
      var inserted := TryInsert(c);
      trace := [] + [Act(c, Aborts)];
      RunSnoc(start, [], Act(c, Aborts));
      if inserted {
        return Proceed, trace;
      }
      ghost var more;
      r, more := HandleExistingRecord(c);
      RunConcat(start, trace, more);
      trace := trace + more;
      if old(schedule) == [] { LoneCheck(start, c, trace); }
    }

    method HandleExistingRecord(c: ClientId) returns (r: CheckResult, ghost trace: seq<Event>)
      requires Running(c, Existing)
      modifies this
      ensures St() == Run(old(St()), trace)
      ensures c in clients && Running(c, clients[c].pc) && Lands(clients[c].pc, r, [])
      ensures old(schedule) == [] ==> schedule == [] && Alone(trace, c)
    {
      ghost var start := St();
      trace := Await(c, Existing);
      RunSnoc(start, trace, Act(c, Aborts));
      trace := trace + [Act(c, Aborts)];

      var key, hash := clients[c].key, clients[c].hash;
      if key !in records {
        clients := clients[c := clients[c].(pc := Returned(Unavailable))];
        return ServiceUnavailable, trace;
      }
      var record := records[key];
      if record.hash != hash {
        clients := clients[c := clients[c].(pc := Returned(Conflict))];
        return ConflictException, trace;
      }
      ghost var more;
      if record.status == Completed && record.body.Some? {
        clients := clients[c := clients[c].(pc := Fetching([], record.confession))];
        r, more := FetchConfession(c, [], record.confession);
      } else if record.status == Failed {
        clients := clients[c := clients[c].(pc := Claiming([]))];
        r, more := ClaimFailedRecord(c, []);
      } else {
        clients := clients[c := clients[c].(pc := Looping([now + MAX_WAIT_MS]))];
        assert [] + [now + MAX_WAIT_MS] == [now + MAX_WAIT_MS];
        r, more := WaitForProcessing(c, []);
      }
      RunConcat(start, trace, more);
      trace := trace + more;
    }

    /** Reads the confession that a completed record names; ends the innermost wait, if there is one. */
    method FetchConfession(c: ClientId, frames: seq<nat>, confession: Option<ConfessionId>)
      returns (r: CheckResult, ghost trace: seq<Event>)
      requires Running(c, Fetching(frames, confession))
      modifies this
      ensures St() == Run(old(St()), trace) && now >= old(now) && |schedule| <= |old(schedule)|
      ensures r.Replayed?
      ensures c in clients && Running(c, clients[c].pc)
      ensures Lands(clients[c].pc, r, if frames == [] then [] else frames[..|frames| - 1])
      ensures old(schedule) == [] ==> schedule == [] && Alone(trace, c)
    {
      ghost var start := St();
      trace := Await(c, Fetching(frames, confession));
      RunSnoc(start, trace, Act(c, Aborts));
      trace := trace + [Act(c, Aborts)];
      r := Replayed(if confession.Some? && confession.value in rows then confession else None);
      var pc := if |frames| > 1 then Looping(frames[..|frames| - 1]) else Returned(Replay(r.confession));
      clients := clients[c := clients[c].(pc := pc)];
    }

    /**
      Polls until the record is completed or failed, or the deadline passes.
      `outer` are the deadlines of the waits that this one is nested in.
     */
    method WaitForProcessing(c: ClientId, outer: seq<nat>) returns (r: CheckResult, ghost trace: seq<Event>)
      requires Running(c, Looping(outer + [now + MAX_WAIT_MS]))
      modifies this
      ensures St() == Run(old(St()), trace) && now >= old(now) && |schedule| <= |old(schedule)|
      ensures c in clients && Running(c, clients[c].pc) && Lands(clients[c].pc, r, outer)
      ensures old(schedule) == [] ==> schedule == [] && Alone(trace, c)
      decreases |schedule|, 1
    {
      ghost var start, batches := St(), schedule;
      trace := [];
      var deadline := now + MAX_WAIT_MS;
      var frames := outer + [deadline];
      assert frames[..|frames| - 1] == outer && frames[|frames| - 1] == deadline;

      while now < deadline
        invariant Running(c, Looping(frames))
        invariant St() == Run(start, trace) && now >= old(now) && |schedule| <= |batches|
        invariant batches == [] ==> Alone(trace, c)
        decreases deadline - now
      {
        ghost var more := Sleep(c, frames, deadline);
        RunConcat(start, trace, more);
        trace := trace + more;

        RunSnoc(start, trace, Act(c, Aborts));
        trace := trace + [Act(c, Aborts)];
        var key, hash := clients[c].key, clients[c].hash;
        if key !in records {
          clients := clients[c := clients[c].(pc := Returned(Unavailable))];
          return ServiceUnavailable, trace;
        }
        var record := records[key];
        if record.hash != hash {
          clients := clients[c := clients[c].(pc := Returned(Conflict))];
          return ConflictException, trace;
        }
        if record.status == Completed && record.body.Some? {
          clients := clients[c := clients[c].(pc := Fetching(frames, record.confession))];
          r, more := FetchConfession(c, frames, record.confession);
          RunConcat(start, trace, more);
          trace := trace + more;
          return;
        }
        if record.status == Failed {
          clients := clients[c := clients[c].(pc := Claiming(frames))];
          r, more := ClaimFailedRecord(c, frames);
          RunConcat(start, trace, more);
          trace := trace + more;
          if !r.Replayed? { return; }
        } else {
          clients := clients[c := clients[c].(pc := Looping(frames))];
        }
      }

      RunSnoc(start, trace, Act(c, Aborts));
      trace := trace + [Act(c, Aborts)];
      clients := clients[c := clients[c].(pc := Returned(Unavailable))];
      return ServiceUnavailable, trace;
    }

    /** One poll interval; whatever else happens meanwhile, at least that much time passes. */
    method Sleep(c: ClientId, frames: seq<nat>, deadline: nat) returns (ghost trace: seq<Event>)
      requires Running(c, Looping(frames)) && frames != [] && frames[|frames| - 1] == deadline && now < deadline
      modifies this
      ensures c in clients && clients[c].pc.Sleeping? && clients[c].pc.frames == frames && clients[c].pc.wake <= now
      ensures Running(c, clients[c].pc)
      ensures St() == Run(old(St()), trace) && now > old(now) && |schedule| <= |old(schedule)|
      ensures old(schedule) == [] ==> schedule == [] && Alone(trace, c)
    {
      ghost var start := St();
      var wake := now + POLL_INTERVAL_MS;
      clients := clients[c := clients[c].(pc := Sleeping(frames, wake))];
      trace := [Act(c, Aborts)];
      RunSnoc(start, [], Act(c, Aborts));
      assert [] + [Act(c, Aborts)] == trace;

      ghost var batch := Await(c, Sleeping(frames, wake));
      RunConcat(start, trace, batch);
      trace := trace + batch;
      if now < wake {
        RunSnoc(start, trace, Elapse(wake - now));
        trace := trace + [Elapse(wake - now)];
        now := wake;
      }
    }

    /** Atomically lets one waiting request take over a failed attempt; the others wait again. */
    method ClaimFailedRecord(c: ClientId, frames: seq<nat>) returns (r: CheckResult, ghost trace: seq<Event>)
      requires Running(c, Claiming(frames))
      requires clients[c].key in records && records[clients[c].key].status == Failed
      modifies this
      ensures St() == Run(old(St()), trace) && now >= old(now) && |schedule| <= |old(schedule)|
      ensures c in clients && Running(c, clients[c].pc) && Lands(clients[c].pc, r, frames)
      ensures old(schedule) == [] ==> schedule == [] && Alone(trace, c)
      decreases |schedule|, 0
    {
      ghost var start := St();
      trace := Await(c, Claiming(frames));
      RunSnoc(start, trace, Act(c, Aborts));
      trace := trace + [Act(c, Aborts)];
      var key, hash := clients[c].key, clients[c].hash;
      if key in records && records[key].status == Failed {
        records := records[key := records[key].(status := Processing, hash := hash)];
        clients := clients[c := clients[c].(pc := Creating)];
        return Proceed, trace;
      }
      // The claim can only be lost to an event of the batch, so a batch was used up.
      clients := clients[c := clients[c].(pc := Looping(frames + [now + MAX_WAIT_MS]))];
      ghost var more;
      r, more := WaitForProcessing(c, frames);
      RunConcat(start, trace, more);
      trace := trace + more;
    }

    /** `executeCreate`: one transaction, which may raise before or after it commits. */
    method ExecuteCreate(c: ClientId, work: Work) returns (saved: bool, ghost trace: seq<Event>)
      requires Running(c, Creating)
      modifies this
      ensures St() == Run(old(St()), trace)
      ensures saved ==> work.Inserts?
      ensures Running(c, if saved then Committing(work.id) else Failing)
      ensures old(schedule) == [] ==> schedule == [] && trace == [Act(c, work)]
    {
      ghost var batch := Await(c, Creating);
      RunSnoc(old(St()), batch, Act(c, work));
      trace := batch + [Act(c, work)];
      var key, hash := clients[c].key, clients[c].hash;
      var created := work.Inserts? && work.id !in rows && forall id | id in rows :: rows[id].key != Some(key);
      if created {
        rows := rows[work.id := Confession(Some(key), hash)];
      }
      saved := created && !work.raises;
      clients := clients[c := clients[c].(pc := if saved then Committing(work.id) else Failing)];
    }

    /** The owner side: run the creation, then commit its success or its failure. */
    method Create(c: ClientId, work: Work) returns (outcome: Outcome, ghost trace: seq<Event>)
      requires Running(c, Start)
      modifies this
      ensures St() == Run(old(St()), trace)
      ensures Running(c, Returned(outcome))
      ensures old(schedule) == [] ==>
                if Free(old(St()), c) then Creates(old(St()), St(), c, work) else Checked(old(St()), St(), c)
    {
      ghost var start := St();
      var r;
      r, trace := Check(c);
      match r {
        case Replayed(confession) => return Replay(confession), trace;
        case ConflictException => return Conflict, trace;
        case ServiceUnavailable => return Unavailable, trace;
        case Proceed =>
      }
      ghost var more, taken := [], St();
      var saved;
      saved, more := ExecuteCreate(c, work);
      if old(schedule) == [] { assert St() == Step(taken, Act(c, work)) by { RunSnoc(taken, [], Act(c, work)); } }
      RunConcat(start, trace, more);
      trace := trace + more;
      more := Await(c, clients[c].pc);
      RunConcat(start, trace, more);
      trace := trace + more;
      if saved {
        CommitSuccess(c, work.id);
        outcome := Created(work.id);
      } else {
        CommitFailure(c);
        outcome := CreateFailed;
      }
      RunSnoc(start, trace, Act(c, work));
      trace := trace + [Act(c, work)];
      if old(schedule) == [] { CreationCreates(taken, c, work); }
    }

    method CommitSuccess(c: ClientId, id: ConfessionId)
      requires Running(c, Committing(id))
      modifies this`records, this`clients
      ensures Running(c, Returned(Created(id)))
      ensures forall w :: St() == Step(old(St()), Act(c, w))
    {
      var key := clients[c].key;
      if key in records {
        records := records[key := records[key].(
          status := Completed,
          confession := Some(id),
          body := Some(Response(id, clients[c].hash.message)))];
      }
      clients := clients[c := clients[c].(pc := Returned(Created(id)))];
    }

    method CommitFailure(c: ClientId)
      requires Running(c, Failing)
      modifies this`records, this`clients
      ensures Running(c, Returned(CreateFailed))
      ensures forall w :: St() == Step(old(St()), Act(c, w))
    {
      var key := clients[c].key;
      if key in records {
        records := records[key := records[key].(status := Failed)];
      }
      clients := clients[c := clients[c].(pc := Returned(CreateFailed))];
    }
  }
}
