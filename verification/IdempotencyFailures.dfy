/**
  When a key can no longer be answered: a creation that raised after its row was
  committed, or a client that crashed between its row and its commit, leaves a
  row that no record names, and every retry fails on it.
 */
module IdempotencyFailures {
  import opened Options
  import opened IdempotencyProtocol
  import opened IdempotencyTheorems

  // ---- What one client's creation did --------------------------------------

  /** The creation step of a client: the row it inserted, if it did, and whether it raised. */
  datatype Attempt = Attempt(row: Option<ConfessionId>, raised: bool)

  function AttemptNow(s: State, c: ClientId, w: Work): Attempt
    requires c in s.clients
  {
    if w.Aborts? then Attempt(None, true)
    else Attempt(if w.id in s.rows || KeyTaken(s, s.clients[c].key) then None else Some(w.id), w.raises)
  }

  predicate IsCreation(s: State, e: Event, c: ClientId) {
    e.Act? && e.c == c && Enabled(s, c) && s.clients[c].pc.Creating?
  }

  function AttemptOf(s: State, trace: seq<Event>, c: ClientId): Option<Attempt>
    decreases |trace|
  {
    if trace == [] then None
    else if IsCreation(s, trace[0], c) then Some(AttemptNow(s, c, trace[0].work))
    else AttemptOf(Step(s, trace[0]), trace[1..], c)
  }

  /** Where a client can stand after a creation step. */
  predicate Follows(pc: Pc, a: Attempt) {
    if a.row.Some? && !a.raised then pc == Committing(a.row.value) || pc == Returned(Created(a.row.value))
    else pc == Failing || pc == Returned(CreateFailed)
  }

  predicate HasCreated(pc: Pc) {
    pc.Failing? || pc.Committing? || (pc.Returned? && (pc.outcome.CreateFailed? || pc.outcome.Created?))
  }

  lemma OwnStepFollows(s: State, c: ClientId, w: Work, a: Attempt)
    requires Enabled(s, c) && Follows(s.clients[c].pc, a)
    ensures var t := ClientStep(s, c, w);
            c in t.clients && Follows(t.clients[c].pc, a) && t.clients[c].key == s.clients[c].key
  {
  }

  lemma StepFollows(s: State, e: Event, c: ClientId, a: Attempt)
    requires c in s.clients && Follows(s.clients[c].pc, a)
    ensures c in Step(s, e).clients && Follows(Step(s, e).clients[c].pc, a)
    ensures Step(s, e).clients[c].key == s.clients[c].key
    ensures !IsCreation(s, e, c)
  {
    if IsOwnStep(s, e, c) { OwnStepFollows(s, c, e.work, a); } else { OthersLeaveClient(s, e, c); }
  }

  lemma OwnStepBeforeCreation(s: State, c: ClientId, w: Work)
    requires Enabled(s, c) && !HasCreated(s.clients[c].pc)
    ensures var t := ClientStep(s, c, w);
            && c in t.clients && t.clients[c].key == s.clients[c].key
            && (if s.clients[c].pc.Creating? then Follows(t.clients[c].pc, AttemptNow(s, c, w))
                else !HasCreated(t.clients[c].pc))
  {
  }

  lemma StepBeforeCreation(s: State, e: Event, c: ClientId)
    requires c in s.clients && !HasCreated(s.clients[c].pc)
    ensures c in Step(s, e).clients && Step(s, e).clients[c].key == s.clients[c].key
    ensures if IsCreation(s, e, c) then Follows(Step(s, e).clients[c].pc, AttemptNow(s, c, e.work))
            else !HasCreated(Step(s, e).clients[c].pc)
  {
    if IsOwnStep(s, e, c) { OwnStepBeforeCreation(s, c, e.work); } else { OthersLeaveClient(s, e, c); }
  }

  lemma {:induction false} FollowsOn(s: State, trace: seq<Event>, c: ClientId, a: Attempt)
    requires c in s.clients && Follows(s.clients[c].pc, a)
    ensures var t := Run(s, trace); c in t.clients && Follows(t.clients[c].pc, a) && t.clients[c].key == s.clients[c].key
    ensures AttemptOf(s, trace, c) == None
    decreases |trace|
  {
    if trace != [] {
      StepFollows(s, trace[0], c, a);
      FollowsOn(Step(s, trace[0]), trace[1..], c, a);
    }
  }

  lemma {:induction false} AttemptTells(s: State, trace: seq<Event>, c: ClientId)
    requires c in s.clients && !HasCreated(s.clients[c].pc)
    ensures var t := Run(s, trace);
            && c in t.clients && t.clients[c].key == s.clients[c].key
            && (if AttemptOf(s, trace, c).Some? then Follows(t.clients[c].pc, AttemptOf(s, trace, c).value)
                else !HasCreated(t.clients[c].pc))
    decreases |trace|
  {
    if trace != [] {
      StepBeforeCreation(s, trace[0], c);
      if IsCreation(s, trace[0], c) {
        FollowsOn(Step(s, trace[0]), trace[1..], c, AttemptNow(s, c, trace[0].work));
      } else {
        AttemptTells(Step(s, trace[0]), trace[1..], c);
      }
    }
  }

  /** Client `c` of the run inserted a row of its own. */
  ghost predicate Inserted(s: State, trace: seq<Event>, c: ClientId) {
    AttemptOf(s, trace, c).Some? && AttemptOf(s, trace, c).value.row.Some?
  }

  ghost predicate Raised(s: State, trace: seq<Event>, c: ClientId) {
    AttemptOf(s, trace, c).Some? && AttemptOf(s, trace, c).value.raised
  }

  /**
    A call reports a failure although its own row was committed if and only if
    its creation inserted the row and then raised.
   */
  lemma FailureAfterCommitIff(init: State, trace: seq<Event>, c: ClientId)
    requires Initial(init) && c in init.clients
    requires c in Run(init, trace).clients && Run(init, trace).clients[c].pc.Returned?
    ensures Run(init, trace).clients[c].pc.outcome.CreateFailed? && Inserted(init, trace, c)
       <==> Inserted(init, trace, c) && Raised(init, trace, c)
    ensures Run(init, trace).clients[c].pc.outcome.Created? <==> Inserted(init, trace, c) && !Raised(init, trace, c)
  {
    AttemptTells(init, trace, c);
  }

  // ---- Keys that cannot be answered any more -------------------------------

  /** The key has a row, no record names it, and nobody is left who would. */
  ghost predicate Wedged(s: State, k: Key) {
    && KeyTaken(s, k)
    && k in s.records && s.records[k].status != Completed
    && (forall c | c in s.clients && s.clients[c].key == k :: s.clients[c].pc.Committing? ==> s.clients[c].crashed)
  }

  lemma OwnStepKeepsWedge(s: State, c: ClientId, w: Work, k: Key)
    requires Wedged(s, k) && Enabled(s, c)
    ensures Wedged(ClientStep(s, c, w), k)
  {
    var t := ClientStep(s, c, w);
    var id :| id in s.rows && s.rows[id].key == Some(k);
    assert id in t.rows && t.rows[id].key == Some(k);
  }

  lemma StepKeepsWedge(s: State, e: Event, k: Key)
    requires Wedged(s, k)
    ensures Wedged(Step(s, e), k)
  {
    if e.Act? && Enabled(s, e.c) { OwnStepKeepsWedge(s, e.c, e.work, k); }
  }

  lemma {:induction false} WedgeLasts(s: State, trace: seq<Event>, k: Key)
    requires Wedged(s, k)
    ensures Wedged(Run(s, trace), k)
    decreases |trace|
  {
    if trace != [] {
      StepKeepsWedge(s, trace[0], k);
      WedgeLasts(Step(s, trace[0]), trace[1..], k);
    }
  }

  lemma WedgedHandsNothing(s: State, c: ClientId)
    requires Inv(s) && c in s.clients && Wedged(s, s.clients[c].key)
    ensures Handed(s, c) == None
    ensures s.clients[c].pc.Returned? ==> s.clients[c].pc.outcome in {CreateFailed, Conflict, Unavailable}
  {
    assert ClientOk(s, c);
  }

  /** From then on no client of the key is ever handed a confession: every retry fails. */
  lemma WedgedKeysAreNeverAnswered(init: State, first: seq<Event>, rest: seq<Event>, c: ClientId)
    requires Initial(init) && c in init.clients && Wedged(Run(init, first), init.clients[c].key)
    ensures var t := Run(Run(init, first), rest);
            && c in t.clients && Handed(t, c) == None
            && (t.clients[c].pc.Returned? ==> t.clients[c].pc.outcome in {CreateFailed, Conflict, Unavailable})
  {
    InitialInv(init);
    RunKeeps(init, first);
    RunKeeps(Run(init, first), rest);
    RunConcat(init, first, rest);
    AttemptTells(init, first + rest, c);
    WedgeLasts(Run(init, first), rest, init.clients[c].key);
    WedgedHandsNothing(Run(Run(init, first), rest), c);
  }

  // ---- Exactly when a key is wedged ----------------------------------------

  lemma RaisingWedges(s: State, c: ClientId, w: Work)
    requires Inv(s) && Enabled(s, c) && s.clients[c].pc.Creating?
    requires AttemptNow(s, c, w).row.Some? && AttemptNow(s, c, w).raised
    ensures Wedged(Step(s, Act(c, w)), s.clients[c].key)
  {
    assert ClientOk(s, c);
    var t := Step(s, Act(c, w));
    assert w.id in t.rows && t.rows[w.id].key == Some(s.clients[c].key);
  }

  lemma {:induction false} RaisedAttemptWedges(s: State, trace: seq<Event>, c: ClientId)
    requires Inv(s) && c in s.clients && Inserted(s, trace, c) && Raised(s, trace, c)
    ensures Wedged(Run(s, trace), s.clients[c].key)
    decreases |trace|
  {
    StepKeeps(s, trace[0]);
    if IsCreation(s, trace[0], c) {
      RaisingWedges(s, c, trace[0].work);
      WedgeLasts(Step(s, trace[0]), trace[1..], s.clients[c].key);
    } else {
      RaisedAttemptWedges(Step(s, trace[0]), trace[1..], c);
    }
  }

  /** A step that first takes a key is a creation that inserts. */
  lemma TakingIsInserting(s: State, e: Event, k: Key)
    requires !KeyTaken(s, k) && KeyTaken(Step(s, e), k)
    ensures e.Act? && IsCreation(s, e, e.c) && s.clients[e.c].key == k && AttemptNow(s, e.c, e.work).row.Some?
  {
    var t := Step(s, e);
    var id :| id in t.rows && t.rows[id].key == Some(k);
    assert e.Act? && Enabled(s, e.c);
  }

  /** A row under a key was inserted by some client of the key. */
  lemma {:induction false} RowsHaveInserters(s: State, trace: seq<Event>, k: Key) returns (c: ClientId)
    requires KeyTaken(Run(s, trace), k) && !KeyTaken(s, k)
    ensures c in s.clients && s.clients[c].key == k && Inserted(s, trace, c)
    decreases |trace|
  {
    var t := Step(s, trace[0]);
    if KeyTaken(t, k) {
      TakingIsInserting(s, trace[0], k);
      c := trace[0].c;
    } else {
      c := RowsHaveInserters(t, trace[1..], k);
      SameClient(s, trace[0], c);
      if IsCreation(s, trace[0], c) {
        OwnStepCreates(s, c, trace[0].work);
        FollowsOn(t, trace[1..], c, AttemptNow(s, c, trace[0].work));
      }
    }
  }

  lemma OwnStepCreates(s: State, c: ClientId, w: Work)
    requires Enabled(s, c) && s.clients[c].pc.Creating?
    ensures var t := ClientStep(s, c, w); c in t.clients && Follows(t.clients[c].pc, AttemptNow(s, c, w))
  {
  }

  lemma SameClient(s: State, e: Event, c: ClientId)
    requires c in Step(s, e).clients
    ensures c in s.clients && Step(s, e).clients[c].key == s.clients[c].key
  {
    if c in s.clients && !IsOwnStep(s, e, c) { OthersLeaveClient(s, e, c); }
  }

  /** What leaves a key without an answer: a creation that raised late, or a crash before the commit. */
  ghost predicate LostCommit(init: State, trace: seq<Event>, k: Key) {
    exists c :: LostBy(init, trace, k, c)
  }

  ghost predicate LostBy(init: State, trace: seq<Event>, k: Key, c: ClientId) {
    && c in init.clients && init.clients[c].key == k && Inserted(init, trace, c)
    && (|| Raised(init, trace, c)
        || (c in Run(init, trace).clients && Run(init, trace).clients[c].crashed
            && Run(init, trace).clients[c].pc.Committing?))
  }

  /** The promise that a retry gets the confession is lost for a key if and only if one of its commits was. */
  lemma WedgedIffCommitLost(init: State, trace: seq<Event>, k: Key)
    requires Initial(init)
    ensures Wedged(Run(init, trace), k) <==> LostCommit(init, trace, k)
  {
    InitialInv(init);
    RunKeeps(init, trace);
    if Wedged(Run(init, trace), k) {
      var c := RowsHaveInserters(init, trace, k);
      AttemptTells(init, trace, c);
      assert ClientOk(Run(init, trace), c);
      assert LostBy(init, trace, k, c);
    }
    if c :| LostBy(init, trace, k, c) {
      if Raised(init, trace, c) { RaisedAttemptWedges(init, trace, c); } else { CrashedCommitWedges(init, trace, c); }
    }
  }

  lemma CrashedCommitWedges(init: State, trace: seq<Event>, c: ClientId)
    requires Initial(init) && c in init.clients && c in Run(init, trace).clients
    requires Run(init, trace).clients[c].crashed && Run(init, trace).clients[c].pc.Committing?
    ensures Wedged(Run(init, trace), init.clients[c].key)
  {
    InitialInv(init);
    RunKeeps(init, trace);
    AttemptTells(init, trace, c);
    var t := Run(init, trace);
    assert ClientOk(t, c);
    assert t.clients[c].pc.id in t.rows;
  }
}
