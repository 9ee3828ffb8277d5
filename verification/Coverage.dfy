/**
 Which task of which claim stands behind a `PROCESSING` row.  A row is claimed but unfinished until
 its completion commits; only some of these rows have a live task, and this module says exactly
 which.
 */
module Coverage {
  import opened EventModel
  import opened Schema
  import opened Ledger
  import opened Protocol
  import opened LeaseProofs
  import opened CompletionProofs
  import opened Runs

  // ---------------------------------------------------------------- claims and their tasks

  /** The task of row `id` of this batch has been spawned. */
  ghost predicate SpawnedFor(c: Claim, id: EventId) {
    c.Returned? && exists k :: k in c.spawned && k < |c.batch| && c.batch[k] == id
  }

  ghost predicate IsTaskOf(tasks: map<TaskId, Task>, t: TaskId, st: StmtId, id: EventId) {
    t in tasks && tasks[t].claim == st && tasks[t].event == id
  }

  /** Rows of a committed batch have been claimed, each once per batch. */
  ghost predicate BatchOk(c: Claim, leases: map<EventId, seq<Lease>>) {
    c.Scanning? || (NoRepeats(c.batch) && forall id | id in c.batch :: id in leases && leases[id] != [])
  }

  ghost predicate BatchesOk(claims: map<StmtId, Claim>, leases: map<EventId, seq<Lease>>) {
    forall st | st in claims :: BatchOk(claims[st], leases)
  }

  ghost predicate LastClaimOk(claims: map<StmtId, Claim>, leases: map<EventId, seq<Lease>>, id: EventId, st: StmtId) {
    && st in claims && !claims[st].Scanning? && id in claims[st].batch
    && id in leases && leases[id] != [] && Last(leases[id]).owner == claims[st].owner
  }

  /** The last claim of each event is the statement that is remembered. */
  ghost predicate LastClaimsOk(
    claims: map<StmtId, Claim>, leases: map<EventId, seq<Lease>>, lastClaim: map<EventId, StmtId>)
  {
    && (forall id | id in lastClaim :: LastClaimOk(claims, leases, id, lastClaim[id]))
    && (forall id | id in leases && leases[id] != [] :: id in lastClaim)
  }

  ghost predicate TaskMatches(claims: map<StmtId, Claim>, task: Task) {
    && task.claim in claims && claims[task.claim].Returned?
    && claims[task.claim].owner == task.owner && SpawnedFor(claims[task.claim], task.event)
  }

  /** Each task was spawned for a row of a batch, and each such row has one task. */
  ghost predicate TasksMatch(claims: map<StmtId, Claim>, tasks: map<TaskId, Task>) {
    && (forall t | t in tasks :: TaskMatches(claims, tasks[t]))
    && (forall t, u | t in tasks && u in tasks
                      && tasks[t].claim == tasks[u].claim && tasks[t].event == tasks[u].event :: t == u)
    && (forall st, id | st in claims && SpawnedFor(claims[st], id) :: exists t :: IsTaskOf(tasks, t, st, id))
  }

  ghost predicate Refused(stage: Stage) {
    stage == Answered(No) || stage == Ended(CountedLost)
  }

  /** A task is refused only after its event was processed or claimed again. */
  ghost predicate RefusalOk(rows: Table, task: Task, lastClaim: map<EventId, StmtId>) {
    Refused(task.stage) ==>
      IsProcessed(rows, task.event) || (task.event in lastClaim && lastClaim[task.event] != task.claim)
  }

  ghost predicate RefusalsOk(rows: Table, tasks: map<TaskId, Task>, lastClaim: map<EventId, StmtId>) {
    forall t | t in tasks :: RefusalOk(rows, tasks[t], lastClaim)
  }

  ghost predicate CoverInv(s: State) {
    && BatchesOk(s.claims, s.leases)
    && LastClaimsOk(s.claims, s.leases, s.lastClaim)
    && TasksMatch(s.claims, s.tasks)
    && RefusalsOk(s.rows, s.tasks, s.lastClaim)
  }

  lemma CoverInvInit()
    ensures CoverInv(INIT)
  {
  }

  // ---------------------------------------------------------------- admission

  lemma CommitInsertCovers(s: State, s': State, tx: TxId, delivered: bool)
    requires CoverInv(s) && CommitInsert(s, s', tx, delivered)
    requires s.admissions[tx].req.id !in s.rows && s.admissions[tx].req.id !in s.leases
    ensures CoverInv(s')
  {
    var id := s.admissions[tx].req.id;
    assert forall x | x in s.leases :: s'.leases[x] == s.leases[x];
    assert s'.leases[id] == [];
    forall st | st in s.claims ensures BatchOk(s.claims[st], s'.leases) {
      assert BatchOk(s.claims[st], s.leases);
    }
    forall x | x in s.lastClaim ensures LastClaimOk(s.claims, s'.leases, x, s.lastClaim[x]) {
      assert LastClaimOk(s.claims, s.leases, x, s.lastClaim[x]);
    }
    RefusalsKept(s.rows, s'.rows, s.tasks, s.lastClaim);
  }

  lemma RefusalsKept(rows: Table, rows': Table, tasks: map<TaskId, Task>, lastClaim: map<EventId, StmtId>)
    requires RefusalsOk(rows, tasks, lastClaim)
    requires forall id | IsProcessed(rows, id) :: IsProcessed(rows', id)
    ensures RefusalsOk(rows', tasks, lastClaim)
  {
    forall t | t in tasks ensures RefusalOk(rows', tasks[t], lastClaim) {
      assert RefusalOk(rows, tasks[t], lastClaim);
    }
  }

  // ---------------------------------------------------------------- claiming

  /** A statement that had no tasks and was nobody's last claim changes. */
  lemma ClaimChangeMatches(claims: map<StmtId, Claim>, tasks: map<TaskId, Task>, st: StmtId, c: Claim)
    requires TasksMatch(claims, tasks) && (st in claims ==> claims[st].Scanning?)
    requires c.Returned? ==> c.spawned == {}
    ensures TasksMatch(claims[st := c], tasks)
  {
    var claims' := claims[st := c];
    forall t | t in tasks ensures TaskMatches(claims', tasks[t]) {
      assert TaskMatches(claims, tasks[t]);
    }
    forall u, id | u in claims' && SpawnedFor(claims'[u], id) ensures exists t :: IsTaskOf(tasks, t, u, id) {
      assert u != st && u in claims;
    }
  }

  lemma ClaimChangeLasts(
    claims: map<StmtId, Claim>, leases: map<EventId, seq<Lease>>, lastClaim: map<EventId, StmtId>, st: StmtId,
    c: Claim)
    requires LastClaimsOk(claims, leases, lastClaim) && (st in claims ==> claims[st].Scanning?)
    ensures LastClaimsOk(claims[st := c], leases, lastClaim)
  {
    forall id | id in lastClaim ensures LastClaimOk(claims[st := c], leases, id, lastClaim[id]) {
      assert LastClaimOk(claims, leases, id, lastClaim[id]);
    }
  }

  lemma ScanCovers(s: State, s': State, st: StmtId, c: Claim)
    requires CoverInv(s) && s' == s.(claims := s.claims[st := c]) && (st in s.claims ==> s.claims[st].Scanning?)
    requires c.Scanning? || c == Dropped(c.owner, [])
    ensures CoverInv(s')
  {
    ClaimChangeMatches(s.claims, s.tasks, st, c);
    ClaimChangeLasts(s.claims, s.leases, s.lastClaim, st, c);
  }

  lemma ExtendKeepsBatch(c: Claim, leases: map<EventId, seq<Lease>>, ids: set<EventId>, lease: Lease)
    requires BatchOk(c, leases)
    ensures BatchOk(c, ExtendLeases(leases, ids, lease))
  {
  }

  lemma CommitBatches(
    claims: map<StmtId, Claim>, leases: map<EventId, seq<Lease>>, st: StmtId, c: Claim, ids: set<EventId>, lease: Lease)
    requires BatchesOk(claims, leases) && !c.Scanning? && NoRepeats(c.batch)
    requires forall id | id in c.batch :: id in ids && id in leases
    ensures BatchesOk(claims[st := c], ExtendLeases(leases, ids, lease))
  {
    var claims' := claims[st := c];
    forall u | u in claims' ensures BatchOk(claims'[u], ExtendLeases(leases, ids, lease)) {
      if u != st {
        ExtendKeepsBatch(claims[u], leases, ids, lease);
      }
    }
  }

  lemma CommitLasts(
    claims: map<StmtId, Claim>, leases: map<EventId, seq<Lease>>, lastClaim: map<EventId, StmtId>,
    st: StmtId, c: Claim, ids: set<EventId>, lease: Lease)
    requires LastClaimsOk(claims, leases, lastClaim) && (st in claims ==> claims[st].Scanning?)
    requires !c.Scanning? && c.owner == lease.owner && forall id :: id in c.batch <==> id in ids
    requires forall id | id in ids :: id in leases
    ensures LastClaimsOk(claims[st := c], ExtendLeases(leases, ids, lease), MarkClaimed(lastClaim, ids, st))
  {
    var marked, extended := MarkClaimed(lastClaim, ids, st), ExtendLeases(leases, ids, lease);
    forall id | id in marked ensures LastClaimOk(claims[st := c], extended, id, marked[id]) {
      if id !in ids {
        assert LastClaimOk(claims, leases, id, lastClaim[id]);
      }
    }
  }

  lemma CommitRefusals(s: State, s': State, st: StmtId, delivered: bool)
    requires RefusalsOk(s.rows, s.tasks, s.lastClaim) && TasksMatch(s.claims, s.tasks)
    requires CommitClaim(s, s', st, delivered)
    ensures RefusalsOk(s'.rows, s'.tasks, s'.lastClaim)
  {
    forall t | t in s.tasks ensures RefusalOk(s'.rows, s.tasks[t], s'.lastClaim) {
      assert RefusalOk(s.rows, s.tasks[t], s.lastClaim);
      assert TaskMatches(s.claims, s.tasks[t]);
    }
  }

  lemma CommitClaimCovers(s: State, s': State, st: StmtId, delivered: bool)
    requires CoverInv(s) && ClaimsOk(s.claims, s.rows) && s.leases.Keys == s.rows.Keys
    requires CommitClaim(s, s', st, delivered)
    ensures CoverInv(s')
  {
    var c, ids := s.claims[st], IdSet(s.claims[st].chosen);
    assert ClaimOk(c, s.rows);
    assert forall id | id in c.chosen :: id in s.rows.Keys;
    CommitBatches(s.claims, s.leases, st, s'.claims[st], ids, ClaimLease(c));
    CommitLasts(s.claims, s.leases, s.lastClaim, st, s'.claims[st], ids, ClaimLease(c));
    ClaimChangeMatches(s.claims, s.tasks, st, s'.claims[st]);
    CommitRefusals(s, s', st, delivered);
  }

  lemma SpawnMatches(claims: map<StmtId, Claim>, tasks: map<TaskId, Task>, t: TaskId, st: StmtId, k: nat)
    requires TasksMatch(claims, tasks) && t !in tasks && st in claims && claims[st].Returned?
    requires k < |claims[st].batch| && k !in claims[st].spawned && NoRepeats(claims[st].batch)
    ensures var c := claims[st];
            TasksMatch(
              claims[st := c.(spawned := c.spawned + {k})],
              tasks[t := Task(c.owner, c.batch[k], st, Running, false)])
  {
    var c := claims[st];
    var c' := c.(spawned := c.spawned + {k});
    var claims', tasks' := claims[st := c'], tasks[t := Task(c.owner, c.batch[k], st, Running, false)];
    SpawnedOneMore(c, c', k);
    forall u | u in tasks' ensures TaskMatches(claims', tasks'[u]) {
      assert u != t ==> TaskMatches(claims, tasks[u]);
    }
    forall u | u in tasks && tasks[u].claim == st ensures tasks[u].event != c.batch[k] {
      assert TaskMatches(claims, tasks[u]);
    }
    forall u, id | u in claims' && SpawnedFor(claims'[u], id) ensures exists v :: IsTaskOf(tasks', v, u, id) {
      if u == st && id == c.batch[k] {
        assert IsTaskOf(tasks', t, u, id);
      } else {
        assert SpawnedFor(claims[u], id);
        var v :| IsTaskOf(tasks, v, u, id);
        assert IsTaskOf(tasks', v, u, id);
      }
    }
  }

  lemma SpawnedOneMore(c: Claim, c': Claim, k: nat)
    requires c.Returned? && c' == c.(spawned := c.spawned + {k}) && k < |c.batch| && k !in c.spawned
    requires NoRepeats(c.batch)
    ensures forall id :: SpawnedFor(c', id) <==> SpawnedFor(c, id) || id == c.batch[k]
    ensures !SpawnedFor(c, c.batch[k])
  {
    forall id ensures SpawnedFor(c', id) <==> SpawnedFor(c, id) || id == c.batch[k] {
      if SpawnedFor(c, id) {
        var j :| j in c.spawned && j < |c.batch| && c.batch[j] == id;
        assert j in c'.spawned;
      }
      if id == c.batch[k] {
        assert k in c'.spawned;
      }
    }
  }

  lemma SpawnCovers(s: State, s': State, t: TaskId, st: StmtId, k: nat)
    requires CoverInv(s) && Spawn(s, s', t, st, k)
    ensures CoverInv(s')
  {
    var c := s.claims[st];
    assert BatchOk(c, s.leases);
    SpawnMatches(s.claims, s.tasks, t, st, k);
    SpawnLasts(s.claims, s.leases, s.lastClaim, st, c.(spawned := c.spawned + {k}));
  }

  lemma SpawnLasts(
    claims: map<StmtId, Claim>, leases: map<EventId, seq<Lease>>, lastClaim: map<EventId, StmtId>, st: StmtId,
    c: Claim)
    requires BatchesOk(claims, leases) && LastClaimsOk(claims, leases, lastClaim) && st in claims
    requires claims[st].Returned?
    requires c.Returned? && c == claims[st].(spawned := c.spawned)
    ensures BatchesOk(claims[st := c], leases) && LastClaimsOk(claims[st := c], leases, lastClaim)
  {
    forall id | id in lastClaim ensures LastClaimOk(claims[st := c], leases, id, lastClaim[id]) {
      assert LastClaimOk(claims, leases, id, lastClaim[id]);
    }
  }

  lemma ClaimStepsCover(s: State, s': State, step: ClaimStep)
    requires CoverInv(s) && ClaimsOk(s.claims, s.rows) && s.leases.Keys == s.rows.Keys && ClaimNext(s, s', step)
    ensures CoverInv(s')
  {
    match step
    case BeginClaimStep(st, owner, limit, leaseMs, now, queue) => ScanCovers(s, s', st, s'.claims[st]);
    case VisitStep(st) => ScanCovers(s, s', st, s'.claims[st]);
    case CommitClaimStep(st, delivered) => CommitClaimCovers(s, s', st, delivered);
    case AbortClaimStep(st) => ScanCovers(s, s', st, s'.claims[st]);
    case SpawnStep(t, st, k) => SpawnCovers(s, s', t, st, k);
  }

  // ---------------------------------------------------------------- completion

  /** Tasks keep their claim, worker and event. */
  ghost predicate SameTasks(tasks: map<TaskId, Task>, tasks': map<TaskId, Task>) {
    && tasks'.Keys == tasks.Keys
    && forall t | t in tasks :: tasks'[t] == tasks[t].(stage := tasks'[t].stage, gone := tasks'[t].gone)
  }

  lemma SameTasksMatch(claims: map<StmtId, Claim>, tasks: map<TaskId, Task>, tasks': map<TaskId, Task>)
    requires TasksMatch(claims, tasks) && SameTasks(tasks, tasks')
    ensures TasksMatch(claims, tasks')
  {
    forall t | t in tasks' ensures TaskMatches(claims, tasks'[t]) {
      assert TaskMatches(claims, tasks[t]);
    }
    forall st, id | st in claims && SpawnedFor(claims[st], id) ensures exists t :: IsTaskOf(tasks', t, st, id) {
      var t :| IsTaskOf(tasks, t, st, id);
      assert IsTaskOf(tasks', t, st, id);
    }
  }

  lemma TaskStepsKeepTasks(s: State, s': State, step: TaskStep)
    requires TaskNext(s, s', step)
    ensures SameTasks(s.tasks, s'.tasks)
  {
  }

  /** While the task's claim is the last and the event is not processed, its worker owns the row. */
  lemma LastClaimOwns(s: State, t: TaskId)
    requires CoverInv(s) && RowsOk(s.rows, s.leases) && t in s.tasks && s.tasks[t].event in s.rows
    ensures s.tasks[t].event in s.lastClaim
    ensures s.lastClaim[s.tasks[t].event] == s.tasks[t].claim ==>
              IsProcessed(s.rows, s.tasks[t].event) || Owns(s.rows[s.tasks[t].event], s.tasks[t].owner)
  {
    var task := s.tasks[t];
    assert TaskMatches(s.claims, task) && BatchOk(s.claims[task.claim], s.leases);
    assert task.event in s.claims[task.claim].batch;
    assert LastClaimOk(s.claims, s.leases, task.event, s.lastClaim[task.event]);
    assert RowOk(s.rows[task.event], s.leases[task.event]);
  }

  lemma NewRefusal(s: State, s': State, step: TaskStep, t: TaskId)
    requires TaskNext(s, s', step) && t in s.tasks && t in s'.tasks && Refused(s'.tasks[t].stage)
    ensures Refused(s.tasks[t].stage)
            || (s.tasks[t].event in s.rows && !Owns(s.rows[s.tasks[t].event], s.tasks[t].owner))
  {
  }

  lemma TaskRefusal(s: State, s': State, step: TaskStep, t: TaskId)
    requires CoverInv(s) && RowsOk(s.rows, s.leases) && TaskNext(s, s', step) && t in s.tasks && t in s'.tasks
    requires s'.tasks[t] == s.tasks[t].(stage := s'.tasks[t].stage, gone := s'.tasks[t].gone)
    ensures RefusalOk(s.rows, s'.tasks[t], s.lastClaim)
  {
    assert RefusalOk(s.rows, s.tasks[t], s.lastClaim);
    if Refused(s'.tasks[t].stage) && !Refused(s.tasks[t].stage) {
      NewRefusal(s, s', step, t);
      LastClaimOwns(s, t);
    }
  }

  lemma TaskRefusals(s: State, s': State, step: TaskStep)
    requires CoverInv(s) && RowsOk(s.rows, s.leases) && TaskNext(s, s', step) && SameTasks(s.tasks, s'.tasks)
    ensures RefusalsOk(s.rows, s'.tasks, s.lastClaim)
  {
    forall t | t in s'.tasks ensures RefusalOk(s.rows, s'.tasks[t], s.lastClaim) {
      TaskRefusal(s, s', step, t);
    }
  }

  lemma StillProcessed(rows: Table, id: EventId, now: int)
    requires id in rows
    ensures forall x | IsProcessed(rows, x) :: IsProcessed(rows[id := Completed(rows[id], now)], x)
  {
  }

  lemma TaskStepsCover(s: State, s': State, step: TaskStep)
    requires CoverInv(s) && RowsOk(s.rows, s.leases) && TaskNext(s, s', step)
    ensures CoverInv(s')
  {
    TaskStepsKeepTasks(s, s', step);
    TaskRefusals(s, s', step);
    SameTasksMatch(s.claims, s.tasks, s'.tasks);
    if step.CommitCompleteStep? {
      StillProcessed(s.rows, s.tasks[step.t].event, s.tasks[step.t].stage.now);
      RefusalsKept(s.rows, s'.rows, s'.tasks, s.lastClaim);
    } else {
      QuietTaskKeeps(s, s', step);
    }
  }

  lemma CoverInvNext(s: State, s': State, step: Step)
    requires CoverInv(s) && LeaseInv(s) && NextStep(s, s', step)
    requires step.Admitting? && step.admit.CommitInsertStep? ==> s.admissions[step.admit.tx].req.id !in s.rows
    ensures CoverInv(s')
  {
    match step
    case Admitting(admit) =>
      if admit.CommitInsertStep? {
        CommitInsertCovers(s, s', admit.tx, admit.delivered);
      } else {
        QuietAdmitKeeps(s, s', admit);
      }
    case Claiming(claim) => ClaimStepsCover(s, s', claim);
    case Tasking(task) => TaskStepsCover(s, s', task);
  }

  lemma {:induction false} CoverInvOnRun(states: seq<State>, i: nat)
    requires Run(states) && i < |states|
    ensures CoverInv(states[i])
  {
    if i == 0 {
      CoverInvInit();
    } else {
      CoverInvOnRun(states, i - 1);
      var step := StepOnRun(states, i - 1);
      CoverInvNext(states[i - 1], states[i], step);
    }
  }

  // ---------------------------------------------------------------- what covers a row

  /** Still in its worker's task set. */
  ghost predicate Live(task: Task) {
    !task.gone && !task.stage.Ended?
  }

  /** Failed, cut off from its reply, or gone with its process. */
  ghost predicate GivenUp(task: Task) {
    task.gone || task.stage == Ended(CountedFailed) || task.stage == Ended(ReplyLost)
  }

  /** The task that the event's last claim was made for is live. */
  ghost predicate Covered(s: State, id: EventId) {
    id in s.lastClaim && exists t :: IsTaskOf(s.tasks, t, s.lastClaim[id], id) && Live(s.tasks[t])
  }

  /** The reply of the last claim was lost, its task is not spawned yet, or the task has given up. */
  ghost predicate Stranded(s: State, id: EventId) {
    && id in s.lastClaim && s.lastClaim[id] in s.claims
    && (|| s.claims[s.lastClaim[id]].Dropped?
        || !SpawnedFor(s.claims[s.lastClaim[id]], id)
        || exists t :: IsTaskOf(s.tasks, t, s.lastClaim[id], id) && GivenUp(s.tasks[t]))
  }

  lemma EndedSomehow(stage: Stage)
    ensures stage.Ended? ==>
              || HasWon(stage) || Refused(stage) || stage == Ended(CountedFailed) || stage == Ended(ReplyLost)
  {
    if stage.Ended? {
      match stage.result
      case CountedProcessed =>
      case CountedFailed =>
      case CountedLost =>
      case ReplyLost =>
    }
  }

  /** The task of the last claim of a row that is still owned has not been answered yes or no. */
  lemma OwnedIsUndecided(s: State, t: TaskId, id: EventId)
    requires CoverInv(s) && DoneInv(s) && id in s.rows && s.rows[id].life.status == Processing
    requires id in s.lastClaim && IsTaskOf(s.tasks, t, s.lastClaim[id], id)
    ensures Live(s.tasks[t]) <==> !GivenUp(s.tasks[t])
  {
    assert RefusalOk(s.rows, s.tasks[t], s.lastClaim);
    assert HasWon(s.tasks[t].stage) ==> id in s.completer;
    if id in s.completer {
      RecordedIsProcessed(s, id);
    }
    EndedSomehow(s.tasks[t].stage);
  }

  /**
   In every run, an unfinished event is covered by the live task of its last claim if, and only if,
   that claim's reply arrived, its task was spawned, and the task has not failed, lost its reply or
   gone with its process.
   */
  lemma CoveredExactly(states: seq<State>, n: nat, w: WorkerId, id: EventId)
    requires Run(states) && n < |states| && id in states[n].rows && Owns(states[n].rows[id], w)
    ensures Covered(states[n], id) <==> !Stranded(states[n], id)
  {
    CoverInvOnRun(states, n);
    DoneInvOnRun(states, n);
    RowOkOnRun(states, n, id);
    CoveredOrStranded(states[n], id);
  }

  lemma CoveredOrStranded(s: State, id: EventId)
    requires CoverInv(s) && DoneInv(s) && id in s.rows && s.rows[id].life.status == Processing
    requires id in s.leases && s.leases[id] != []
    ensures Covered(s, id) <==> !Stranded(s, id)
  {
    var st := s.lastClaim[id];
    assert LastClaimOk(s.claims, s.leases, id, st);
    if SpawnedFor(s.claims[st], id) {
      var t :| IsTaskOf(s.tasks, t, st, id);
      OwnedIsUndecided(s, t, id);
      assert forall u | IsTaskOf(s.tasks, u, st, id) :: u == t;
    } else {
      assert forall u | IsTaskOf(s.tasks, u, st, id) :: TaskMatches(s.claims, s.tasks[u]);
    }
  }

  // ---------------------------------------------------------------- how many there are

  /** Claimed by `w` and not finished. */
  ghost function Unfinished(s: State, w: WorkerId): set<EventId> {
    set id | id in s.rows && Owns(s.rows[id], w)
  }

  ghost function LiveTasks(s: State, w: WorkerId): set<TaskId> {
    set t | t in s.tasks && s.tasks[t].owner == w && Live(s.tasks[t])
  }

  ghost function StrandedEvents(s: State, w: WorkerId): set<EventId> {
    set id | id in Unfinished(s, w) && Stranded(s, id)
  }

  /** The live tasks of `w` that were spawned for the last claim of an event that `w` still owns. */
  ghost function Covering(s: State, w: WorkerId): set<TaskId> {
    set t | t in LiveTasks(s, w) && s.tasks[t].event in Unfinished(s, w)
            && s.tasks[t].event in s.lastClaim && s.lastClaim[s.tasks[t].event] == s.tasks[t].claim
  }

  /** If each event has a task among `ts`, and no two tasks of `ts` have one event, they are as many. */
  lemma {:induction false} EachHasItsOwn(tasks: map<TaskId, Task>, ids: set<EventId>, ts: set<TaskId>)
    requires forall id | id in ids :: exists t :: t in ts && t in tasks && tasks[t].event == id
    requires forall t | t in ts :: t in tasks && tasks[t].event in ids
    requires forall t, u | t in ts && u in ts && tasks[t].event == tasks[u].event :: t == u
    ensures |ids| == |ts|
    decreases |ids|
  {
    if ids == {} {
      assert forall t :: t !in ts;
    } else {
      var id :| id in ids;
      var t :| t in ts && t in tasks && tasks[t].event == id;
      forall x | x in ids - {id} ensures exists u :: u in ts - {t} && u in tasks && tasks[u].event == x {
        var u :| u in ts && u in tasks && tasks[u].event == x;
        assert u in ts - {t};
      }
      EachHasItsOwn(tasks, ids - {id}, ts - {t});
    }
  }

  lemma CoveringTask(s: State, w: WorkerId, id: EventId) returns (t: TaskId)
    requires CoverInv(s) && id in Unfinished(s, w) && Covered(s, id)
    requires id in s.leases && s.leases[id] != [] && Last(s.leases[id]).owner == w
    ensures t in Covering(s, w) && s.tasks[t].event == id
  {
    t :| IsTaskOf(s.tasks, t, s.lastClaim[id], id) && Live(s.tasks[t]);
    assert LastClaimOk(s.claims, s.leases, id, s.lastClaim[id]);
    assert TaskMatches(s.claims, s.tasks[t]);
  }

  /** A covering task covers its event, and shares it with no other. */
  lemma CoveringCovers(s: State, w: WorkerId, t: TaskId)
    requires t in Covering(s, w)
    ensures s.tasks[t].event in Unfinished(s, w) && Covered(s, s.tasks[t].event)
  {
    assert IsTaskOf(s.tasks, t, s.lastClaim[s.tasks[t].event], s.tasks[t].event);
  }

  lemma CoveredAreCounted(s: State, w: WorkerId, covered: set<EventId>)
    requires CoverInv(s) && forall id :: id in covered <==> id in Unfinished(s, w) && Covered(s, id)
    requires forall id | id in covered :: id in s.leases && s.leases[id] != [] && Last(s.leases[id]).owner == w
    ensures |covered| == |Covering(s, w)|
  {
    forall id | id in covered ensures exists t :: t in Covering(s, w) && t in s.tasks && s.tasks[t].event == id {
      var t := CoveringTask(s, w, id);
    }
    forall t | t in Covering(s, w) ensures s.tasks[t].event in covered {
      CoveringCovers(s, w, t);
    }
    EachHasItsOwn(s.tasks, covered, Covering(s, w));
  }

  /**
   In every run the unfinished events of a worker are exactly as many as the live tasks that cover one
   of them and the stranded events together.  So they exceed `c` if and only if the stranded ones
   exceed what the covering tasks leave of `c`.
   */
  lemma UnfinishedExactly(states: seq<State>, n: nat, w: WorkerId, c: nat)
    requires Run(states) && n < |states|
    ensures Covering(states[n], w) <= LiveTasks(states[n], w)
    ensures StrandedEvents(states[n], w) <= Unfinished(states[n], w)
    ensures |Unfinished(states[n], w)| == |Covering(states[n], w)| + |StrandedEvents(states[n], w)|
    ensures |Unfinished(states[n], w)| > c <==> |StrandedEvents(states[n], w)| > c - |Covering(states[n], w)|
  {
    var s := states[n];
    CoverInvOnRun(states, n);
    forall id | id in Unfinished(s, w) ensures CoveredOnce(s, w, id) {
      CoveredExactly(states, n, w, id);
      RowOkOnRun(states, n, id);
    }
    UnfinishedSplits(s, w);
  }

  /** Covered or stranded, and claimed last by `w`. */
  ghost predicate CoveredOnce(s: State, w: WorkerId, id: EventId) {
    && (Covered(s, id) <==> !Stranded(s, id))
    && id in s.leases && s.leases[id] != [] && Last(s.leases[id]).owner == w
  }

  lemma UnfinishedSplits(s: State, w: WorkerId)
    requires CoverInv(s) && forall id | id in Unfinished(s, w) :: CoveredOnce(s, w, id)
    ensures |Unfinished(s, w)| == |Covering(s, w)| + |StrandedEvents(s, w)|
  {
    NotStrandedIsCovered(s, w);
    CoveredAreCounted(s, w, Unfinished(s, w) - StrandedEvents(s, w));
    SplitSize(Unfinished(s, w), StrandedEvents(s, w));
  }

  lemma NotStrandedIsCovered(s: State, w: WorkerId)
    requires forall id | id in Unfinished(s, w) :: CoveredOnce(s, w, id)
    ensures StrandedEvents(s, w) <= Unfinished(s, w)
    ensures forall id :: id in Unfinished(s, w) - StrandedEvents(s, w) <==> id in Unfinished(s, w) && Covered(s, id)
  {
    forall id ensures id in Unfinished(s, w) - StrandedEvents(s, w) <==> id in Unfinished(s, w) && Covered(s, id) {
      assert id in Unfinished(s, w) ==> CoveredOnce(s, w, id);
    }
  }

  lemma SplitSize(all: set<EventId>, part: set<EventId>)
    requires part <= all
    ensures |all| == |all - part| + |part|
  {
    assert (all - part) + part == all;
  }
}
