/**
 When a completion is refused.  The documentation calls a refusal a claim lost to another worker;
 the fence compares owners, so a worker that takes over its own expired lease can refuse itself.
 */
module Ownership {
  import opened Utf8
  import opened Schema
  import opened Ledger
  import opened Protocol
  import opened LeaseProofs
  import opened CompletionProofs
  import opened Runs
  import opened Coverage
  import opened Bounded

  // ---------------------------------------------------------------- exactly when

  /** The event's latest claim is the worker's, and nobody has completed the event. */
  ghost predicate HoldsLatestClaim(s: State, w: WorkerId, id: EventId) {
    id in s.leases && s.leases[id] != [] && Last(s.leases[id]).owner == w && id !in s.completer
  }

  /** In every run the row's owner column says exactly this. */
  lemma OwnsExactly(states: seq<State>, n: nat, w: WorkerId, id: EventId)
    requires Run(states) && n < |states| && id in states[n].rows
    ensures Owns(states[n].rows[id], w) <==> HoldsLatestClaim(states[n], w, id)
  {
    var s := states[n];
    RowOkOnRun(states, n, id);
    DoneInvOnRun(states, n);
    if id in s.completer {
      RecordedIsProcessed(s, id);
    } else {
      assert !IsProcessed(s.rows, id);
    }
  }

  /** What the documentation takes a refusal for: the latest claim is another worker's. */
  ghost predicate LostToAnother(s: State, t: TaskId)
    requires t in s.tasks
  {
    var id := s.tasks[t].event;
    id in s.leases && s.leases[id] != [] && Last(s.leases[id]).owner != s.tasks[t].owner
  }

  /** Another task of the same worker completed the event. */
  ghost predicate BeatenByOwn(s: State, t: TaskId)
    requires t in s.tasks
  {
    var id := s.tasks[t].event;
    && id in s.completer && s.completer[id] != t
    && s.completer[id] in s.tasks && s.tasks[s.completer[id]].owner == s.tasks[t].owner
  }

  lemma NotOwnedExactly(states: seq<State>, n: nat, t: TaskId)
    requires Run(states) && n < |states| && t in states[n].tasks && !MayHaveWon(states[n].tasks[t].stage)
    ensures states[n].tasks[t].event in states[n].rows
    ensures !Owns(states[n].rows[states[n].tasks[t].event], states[n].tasks[t].owner) <==>
              LostToAnother(states[n], t) || BeatenByOwn(states[n], t)
  {
    var s, task := states[n], states[n].tasks[t];
    TaskOkOnRun(states, n, t);
    OwnsExactly(states, n, task.owner, task.event);
    HasBeenClaimed(states, n, t);
    DoneInvOnRun(states, n);
    if task.event in s.completer {
      assert CompletedBy(s.rows, s.leases, task.event, s.tasks, s.completer[task.event]);
    }
  }

  lemma HasBeenClaimed(states: seq<State>, n: nat, t: TaskId)
    requires Run(states) && n < |states| && t in states[n].tasks
    ensures states[n].tasks[t].event in states[n].leases && states[n].leases[states[n].tasks[t].event] != []
  {
    var s, task := states[n], states[n].tasks[t];
    CoverInvOnRun(states, n);
    assert TaskMatches(s.claims, task);
    assert BatchOk(s.claims[task.claim], s.leases);
  }

  /**
   A completion statement, on its snapshot and again on the locked row, refuses the task if and only
   if the latest claim is another worker's or another task of the same worker completed the event;
   it goes on if and only if the worker holds the latest claim and nobody has completed the event.
   */
  lemma CompletionRefusedExactly(states: seq<State>, n: nat, t: TaskId)
    requires Run(states) && n < |states| && t in states[n].tasks
    ensures forall s', now | StartComplete(states[n], s', t, now) ::
              && (s'.tasks[t].stage == Answered(No) <==> LostToAnother(states[n], t) || BeatenByOwn(states[n], t))
              && (s'.tasks[t].stage == Completing(now) <==>
                    HoldsLatestClaim(states[n], states[n].tasks[t].owner, states[n].tasks[t].event))
    ensures forall s' | LockComplete(states[n], s', t) ::
              && (s'.tasks[t].stage == Answered(No) <==> LostToAnother(states[n], t) || BeatenByOwn(states[n], t))
              && (s'.tasks[t].stage.Holding? <==>
                    HoldsLatestClaim(states[n], states[n].tasks[t].owner, states[n].tasks[t].event))
  {
    TaskOkOnRun(states, n, t);
    OwnsExactly(states, n, states[n].tasks[t].owner, states[n].tasks[t].event);
    if !MayHaveWon(states[n].tasks[t].stage) {
      NotOwnedExactly(states, n, t);
    }
  }

  // ---------------------------------------------------------------- building runs

  /** Nothing is in flight: no open transaction, no scanning claim, no completion at a row. */
  ghost predicate Idle(s: State) {
    && (forall tx | tx in s.admissions :: s.admissions[tx].phase.Closed?)
    && (forall st | st in s.claims :: !s.claims[st].Scanning?)
    && (forall t | t in s.tasks :: s.tasks[t].stage == Running || s.tasks[t].stage.Ended?)
  }

  /** A request whose event and scope are new is admitted. */
  lemma AdmitRound(s: State, tx: TxId, req: Request, w: WorkerId, c: nat) returns (s': State)
    requires Within(s, w, c) && Idle(s) && tx !in s.admissions && ValidContent(req.content)
    requires req.id !in s.rows && !ScopeTaken(s.rows, ScopeOf(req.content))
    ensures Within(s', w, c) && Idle(s')
    ensures s' == s.(
                    admissions := s.admissions[tx := Admission(req, Closed(Some(Created(req.id))))],
                    rows := s.rows[req.id := Row(req.content, NEW_LIFE)],
                    leases := s.leases[req.id := []],
                    served := s.served + [Served(tx, req, Created(req.id))])
  {
    var inserted := InsertRound(s, tx, req, w, c);
    s' := s.(
      admissions := s.admissions[tx := Admission(req, Closed(Some(Created(req.id))))],
      rows := s.rows[req.id := Row(req.content, NEW_LIFE)],
      leases := s.leases[req.id := []],
      served := s.served + [Served(tx, req, Created(req.id))]);
    assert inserted.admissions[tx := Admission(req, Closed(Some(Created(req.id))))]
        == s.admissions[tx := Admission(req, Closed(Some(Created(req.id))))];
    WithinSameTasks(inserted, s', w, c, Admitting(CommitInsertStep(tx, true)));
  }

  lemma InsertRound(s: State, tx: TxId, req: Request, w: WorkerId, c: nat) returns (s': State)
    requires Within(s, w, c) && Idle(s) && tx !in s.admissions && ValidContent(req.content)
    requires req.id !in s.rows && !ScopeTaken(s.rows, ScopeOf(req.content))
    ensures Within(s', w, c) && s' == s.(admissions := s.admissions[tx := Admission(req, Inserted)])
  {
    var begun := s.(admissions := s.admissions[tx := Admission(req, Begun)]);
    WithinSameTasks(s, begun, w, c, Admitting(BeginAdmitStep(tx, req)));
    assert !MustWait(begun, tx);
    s' := s.(admissions := s.admissions[tx := Admission(req, Inserted)]);
    assert begun.admissions[tx := Admission(req, Inserted)] == s'.admissions;
    WithinSameTasks(begun, s', w, c, Admitting(InsertStep(tx)));
  }

  /** A claim of the one claimable event, up to the end of its scan. */
  lemma ScanRound(s: State, id: EventId, st: StmtId, w: WorkerId, c: nat, now: int) returns (s': State)
    requires Within(s, w, c) && Idle(s) && st !in s.claims && IsCandidates(s.rows, now, [id])
    ensures Within(s', w, c) && s' == s.(claims := s.claims[st := Scanning(w, 1, 1000, now, [], {id}, [id])])
  {
    var begun := s.(claims := s.claims[st := Scanning(w, 1, 1000, now, [id], {}, [])]);
    assert id in [id];
    WithinSameTasks(s, begun, w, c, Claiming(BeginClaimStep(st, w, 1, 1000, now, [id])));
    s' := s.(claims := s.claims[st := Scanning(w, 1, 1000, now, [], {id}, [id])]);
    VisitsFree(s, begun, s', st, id);
    WithinSameTasks(begun, s', w, c, Claiming(VisitStep(st)));
  }

  lemma VisitsFree(s: State, begun: State, scanned: State, st: StmtId, id: EventId)
    requires Idle(s) && id in s.rows && IsScanning(begun, st)
    requires begun == s.(claims := s.claims[st := begun.claims[st]])
    requires begun.claims[st].queue == [id] && begun.claims[st].chosen == [] && begun.claims[st].locked == {}
    requires begun.claims[st].limit == 1 && Claimable(s.rows[id], begun.claims[st].now)
    requires scanned == s.(claims := s.claims[st := begun.claims[st].(queue := [], locked := {id}, chosen := [id])])
    ensures Visit(begun, scanned, st)
  {
    assert !LockedAgainstClaim(begun, st, id);
    assert Visited(begun, st) == begun.claims[st].(queue := [], locked := {id}, chosen := [id]);
  }

  lemma OneRowClaimed(s: State, id: EventId, st: StmtId, w: WorkerId, now: int)
    requires id in s.rows && id in s.leases
    ensures ClaimRows(s.rows, IdSet([id]), w, now, 1000) == s.rows[id := Claimed(s.rows[id], w, now, 1000)]
    ensures ExtendLeases(s.leases, IdSet([id]), Lease(w, now, now + 1_000_000))
         == s.leases[id := s.leases[id] + [Lease(w, now, now + 1_000_000)]]
    ensures MarkClaimed(s.lastClaim, IdSet([id]), st) == s.lastClaim[id := st]
  {
    assert IdSet([id]) == {id};
  }

  /** The claim commits and is answered. */
  lemma CommitRound(s: State, id: EventId, st: StmtId, w: WorkerId, c: nat, now: int) returns (s': State)
    requires Within(s, w, c) && st in s.claims && s.claims[st] == Scanning(w, 1, 1000, now, [], {id}, [id])
    requires id in s.rows && id in s.leases && s.rows[id].life.attempts < MAX_ATTEMPTS
    ensures Within(s', w, c)
    ensures s' == s.(
                    rows := s.rows[id := Claimed(s.rows[id], w, now, 1000)],
                    claims := s.claims[st := Returned(w, [id], {})],
                    leases := s.leases[id := s.leases[id] + [Lease(w, now, now + 1_000_000)]],
                    lastClaim := s.lastClaim[id := st],
                    moved := s'.moved, reclaimed := s'.reclaimed)
  {
    OneRowClaimed(s, id, st, w, now);
    s' := s.(
      rows := ClaimRows(s.rows, IdSet([id]), w, now, 1000),
      claims := s.claims[st := Returned(w, [id], {})],
      leases := ExtendLeases(s.leases, IdSet([id]), Lease(w, now, now + 1_000_000)),
      lastClaim := MarkClaimed(s.lastClaim, IdSet([id]), st),
      moved := s.moved + 1,
      reclaimed := s.reclaimed + |Reclaims(s.rows, IdSet([id]))|);
    CommitsOne(s, s', id, st, w, now);
    WithinSameTasks(s, s', w, c, Claiming(CommitClaimStep(st, true)));
  }

  lemma CommitsOne(s: State, s': State, id: EventId, st: StmtId, w: WorkerId, now: int)
    requires st in s.claims && s.claims[st] == Scanning(w, 1, 1000, now, [], {id}, [id])
    requires id in s.rows && s.rows[id].life.attempts < MAX_ATTEMPTS
    requires s' == s.(
                     rows := ClaimRows(s.rows, IdSet([id]), w, now, 1000),
                     claims := s.claims[st := Returned(w, [id], {})],
                     leases := ExtendLeases(s.leases, IdSet([id]), Lease(w, now, now + 1_000_000)),
                     lastClaim := MarkClaimed(s.lastClaim, IdSet([id]), st),
                     moved := s.moved + 1,
                     reclaimed := s.reclaimed + |Reclaims(s.rows, IdSet([id]))|)
    ensures CommitClaim(s, s', st, true)
  {
  }

  lemma SpawnRound(s: State, id: EventId, st: StmtId, t: TaskId, w: WorkerId, c: nat) returns (s': State)
    requires Within(s, w, c) && st in s.claims && s.claims[st] == Returned(w, [id], {}) && t !in s.tasks
    requires |LiveTasks(s, w)| < c
    ensures Within(s', w, c)
    ensures s' == s.(
                    claims := s.claims[st := Returned(w, [id], {0})],
                    tasks := s.tasks[t := Task(w, id, st, Running, false)])
  {
    s' := s.(claims := s.claims[st := Returned(w, [id], {0})], tasks := s.tasks[t := Task(w, id, st, Running, false)]);
    assert s.claims[st].spawned + {0} == {0};
    assert LiveTasks(s', w) <= LiveTasks(s, w) + {t};
    FewerLive(LiveTasks(s', w), LiveTasks(s, w) + {t});
    WithinNext(s, s', w, c, Claiming(SpawnStep(t, st, 0)));
  }

  /** Worker `w` claims the one claimable event for a second, and spawns task `t` for it. */
  lemma ClaimRound(s: State, id: EventId, st: StmtId, t: TaskId, w: WorkerId, c: nat, now: int) returns (s': State)
    requires Within(s, w, c) && Idle(s) && st !in s.claims && t !in s.tasks && |LiveTasks(s, w)| < c
    requires IsCandidates(s.rows, now, [id]) && id in s.rows && id in s.leases
    requires s.rows[id].life.attempts < MAX_ATTEMPTS
    ensures Within(s', w, c) && Idle(s')
    ensures s'.admissions == s.admissions && s'.completer == s.completer
    ensures s'.rows == s.rows[id := Claimed(s.rows[id], w, now, 1000)]
    ensures s'.leases == s.leases[id := s.leases[id] + [Lease(w, now, now + 1_000_000)]]
    ensures s'.claims == s.claims[st := Returned(w, [id], {0})]
    ensures s'.tasks == s.tasks[t := Task(w, id, st, Running, false)]
  {
    var scanned := ScanRound(s, id, st, w, c, now);
    var claimed := CommitRound(scanned, id, st, w, c, now);
    SameTasksSameLive(s, claimed, w);
    s' := SpawnRound(claimed, id, st, t, w, c);
    assert s'.claims == s.claims[st := Returned(w, [id], {0})];
    StaysIdle(s, s', st, t);
  }

  lemma StaysIdle(s: State, s': State, st: StmtId, t: TaskId)
    requires Idle(s) && s'.admissions == s.admissions
    requires st in s'.claims && s'.claims == s.claims[st := s'.claims[st]] && !s'.claims[st].Scanning?
    requires t in s'.tasks && s'.tasks == s.tasks[t := s'.tasks[t]] && s'.tasks[t].stage == Running
    ensures Idle(s')
  {
  }

  lemma LockRound(s: State, id: EventId, w: WorkerId, c: nat, t: TaskId) returns (s': State)
    requires Within(s, w, c) && Idle(s) && id in s.rows && Owns(s.rows[id], w)
    requires t in s.tasks && s.tasks[t] == Task(w, id, s.tasks[t].claim, Running, false)
    ensures Within(s', w, c) && s' == WithStage(s, t, Holding(0))
  {
    var matched := WithStage(s, t, Completing(0));
    WithinStage(s, matched, w, c, t, Completing(0), Tasking(StartCompleteStep(t, 0)));
    assert !LockedAgainstTask(matched, t, id);
    s' := WithStage(s, t, Holding(0));
    WithinStage(matched, s', w, c, t, Holding(0), Tasking(LockCompleteStep(t)));
  }

  /** Task `t` completes the event. */
  lemma CompleteRound(s: State, id: EventId, w: WorkerId, c: nat, t: TaskId) returns (s': State)
    requires Within(s, w, c) && Idle(s) && id in s.rows && Owns(s.rows[id], w)
    requires t in s.tasks && s.tasks[t] == Task(w, id, s.tasks[t].claim, Running, false)
    ensures Within(s', w, c)
    ensures s' == WithStage(s, t, Answered(Yes)).(
                    rows := s.rows[id := Completed(s.rows[id], 0)], completer := s.completer[id := t])
  {
    var holding := LockRound(s, id, w, c, t);
    s' := CommitHeld(holding, id, w, c, t);
    assert holding.tasks[t := holding.tasks[t].(stage := Answered(Yes))]
        == s.tasks[t := s.tasks[t].(stage := Answered(Yes))];
  }

  lemma CommitHeld(s: State, id: EventId, w: WorkerId, c: nat, t: TaskId) returns (s': State)
    requires Within(s, w, c) && id in s.rows
    requires t in s.tasks && s.tasks[t] == Task(w, id, s.tasks[t].claim, Holding(0), false)
    ensures Within(s', w, c)
    ensures s' == WithStage(s, t, Answered(Yes)).(
                    rows := s.rows[id := Completed(s.rows[id], 0)], completer := s.completer[id := t])
  {
    s' := WithStage(s, t, Answered(Yes)).(
      rows := s.rows[id := Completed(s.rows[id], 0)], completer := s.completer[id := t]);
    WithinStage(s, s', w, c, t, Answered(Yes), Tasking(CommitCompleteStep(t)));
  }

  lemma RefuseRound(s: State, id: EventId, w: WorkerId, c: nat, t: TaskId) returns (s': State)
    requires Within(s, w, c) && id in s.rows && !Owns(s.rows[id], w)
    requires t in s.tasks && s.tasks[t] == Task(w, id, s.tasks[t].claim, Running, false)
    ensures Within(s', w, c) && s' == WithStage(s, t, Ended(CountedLost))
  {
    var refused := WithStage(s, t, Answered(No));
    WithinStage(s, refused, w, c, t, Answered(No), Tasking(StartCompleteStep(t, 0)));
    s' := WithStage(s, t, Ended(CountedLost));
    WithinStage(refused, s', w, c, t, Ended(CountedLost), Tasking(DeliverStep(t, true)));
  }

  // ---------------------------------------------------------------- a worker that refuses itself

  lemma OnlyCandidate(rows: Table, id: EventId, now: int)
    requires id in rows && forall x | x in rows :: Claimable(rows[x], now) <==> x == id
    ensures IsCandidates(rows, now, [id])
  {
  }

  lemma AdmitFirst(req: Request, w: WorkerId, c: nat) returns (s: State)
    requires ValidContent(req.content)
    ensures Within(s, w, c) && Idle(s) && s.rows == map[req.id := Row(req.content, NEW_LIFE)]
    ensures s.leases == map[req.id := []] && s.claims == map[] && s.tasks == map[] && s.completer == map[]
  {
    WithinStart(w, c);
    s := AdmitRound(INIT, 0, req, w, c);
  }

  /** Worker `w` claims the event and has a task for it. */
  lemma ClaimFirst(req: Request, w: WorkerId, c: nat) returns (s: State)
    requires ValidContent(req.content) && c > 0
    ensures Within(s, w, c) && Idle(s) && s.completer == map[]
    ensures s.rows == map[req.id := Claimed(Row(req.content, NEW_LIFE), w, 0, 1000)]
    ensures s.leases == map[req.id := [Lease(w, 0, 1_000_000)]] && s.claims.Keys == {0}
    ensures s.tasks == map[0 := Task(w, req.id, 0, Running, false)]
  {
    s := AdmitFirst(req, w, c);
    OnlyCandidate(s.rows, req.id, 0);
    assert LiveTasks(s, w) == {};
    s := ClaimRound(s, req.id, 0, 0, w, c, 0);
    assert s.leases[req.id] == [Lease(w, 0, 1_000_000)];
  }

  /** Both claims of the event are worker `w`'s, the second after the first lease ran out. */
  lemma ClaimTwice(req: Request, w: WorkerId) returns (s: State)
    requires ValidContent(req.content)
    ensures Within(s, w, 2) && Idle(s) && s.completer == map[]
    ensures req.id in s.rows && Owns(s.rows[req.id], w)
    ensures s.leases == map[req.id := [Lease(w, 0, 1_000_000), Lease(w, 1_000_000, 2_000_000)]]
    ensures s.tasks == map[0 := Task(w, req.id, 0, Running, false), 1 := Task(w, req.id, 1, Running, false)]
  {
    s := ClaimFirst(req, w, 2);
    OnlyCandidate(s.rows, req.id, 1_000_000);
    assert LiveTasks(s, w) == {0};
    s := ClaimRound(s, req.id, 1, 1, w, 2, 1_000_000);
    assert s.leases[req.id] == [Lease(w, 0, 1_000_000), Lease(w, 1_000_000, 2_000_000)];
  }

  /**
   For every request and worker there is a run in which this worker alone claims the event, never
   with more than two live tasks, and still counts a lost claim: its second claim's task is refused
   because its first claim's task, whose lease had run out, completed the event.
   */
  lemma WorkerRefusesItself(req: Request, w: WorkerId) returns (states: seq<State>)
    requires ValidContent(req.content)
    ensures Run(states) && AtMost(states, w, 2)
    ensures var s := states[|states| - 1];
            && s.leases == map[req.id := [Lease(w, 0, 1_000_000), Lease(w, 1_000_000, 2_000_000)]]
            && s.completer == map[req.id := 0]
            && 1 in s.tasks && s.tasks[1] == Task(w, req.id, 1, Ended(CountedLost), false)
  {
    var claimed := ClaimTwice(req, w);
    var completed := CompleteRound(claimed, req.id, w, 2, 0);
    var refused := RefuseRound(completed, req.id, w, 2, 1);
    states := WithinIsRun(refused, w, 2);
  }

  // ---------------------------------------------------------------- a completion whose reply is lost

  /**
   When a completion's reply is lost, the task counts a failure, and the event is processed through
   this task if and only if the lost reply was a success; the documentation says it stays
   `PROCESSING`, which is right exactly of the other replies.
   */
  lemma LostReplyExactly(states: seq<State>, n: nat, s': State, t: TaskId)
    requires Run(states) && n < |states| && Deliver(states[n], s', t, false)
    ensures s'.tasks[t].stage == Ended(ReplyLost) && s'.rows == states[n].rows
    ensures (states[n].tasks[t].event in s'.completer && s'.completer[states[n].tasks[t].event] == t) <==>
              states[n].tasks[t].stage == Answered(Yes)
    ensures states[n].tasks[t].stage == Answered(Yes) ==> IsProcessed(s'.rows, states[n].tasks[t].event)
  {
    var s, id := states[n], states[n].tasks[t].event;
    DoneInvOnRun(states, n);
    if id in s.completer {
      assert CompletedBy(s.rows, s.leases, id, s.tasks, s.completer[id]);
    }
  }

  /** For every request and worker there is a run that ends with such a failure and a processed event. */
  lemma LostReplyHidesCompletion(req: Request, w: WorkerId) returns (states: seq<State>)
    requires ValidContent(req.content)
    ensures Run(states) && AtMost(states, w, 1)
    ensures var s := states[|states| - 1];
            && 0 in s.tasks && s.tasks[0] == Task(w, req.id, 0, Ended(ReplyLost), false)
            && IsProcessed(s.rows, req.id)
  {
    var claimed := ClaimFirst(req, w, 1);
    var completed := CompleteRound(claimed, req.id, w, 1, 0);
    var lost := WithStage(completed, 0, Ended(ReplyLost));
    WithinStage(completed, lost, w, 1, 0, Ended(ReplyLost), Tasking(DeliverStep(0, false)));
    states := WithinIsRun(lost, w, 1);
  }
}
