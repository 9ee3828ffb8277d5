/**
 Rows, leases and row locks under every interleaving: every row passes the schema's
 checks and agrees with the history of its claims, and no two statements hold one row.
 */
module LeaseProofs {
  import opened Utf8
  import opened EventModel
  import opened Schema
  import opened Ledger
  import opened Protocol
  import AdmissionProofs

  // ---------------------------------------------------------------- rows and their claim history

  ghost predicate LongEnough(l: Lease) {
    l.started + MIN_LEASE_MS * 1000 <= l.expires <= l.started + MAX_LEASE_MS * 1000
  }

  /** Each lease starts no earlier than the one before it ran out. */
  ghost predicate Consecutive(h: seq<Lease>) {
    && (forall i | 0 <= i < |h| :: LongEnough(h[i]))
    && (forall i, j | 0 <= i && j == i + 1 && j < |h| :: h[i].expires <= h[j].started)
  }

  function Last(h: seq<Lease>): Lease
    requires h != []
  {
    h[|h| - 1]
  }

  /** The lifecycle columns show the last claim, and the counter counts the claims. */
  ghost predicate Shows(l: Lifecycle, h: seq<Lease>) {
    && l.attempts == |h|
    && (l.status == Pending <==> h == [])
    && (h != [] ==> l.startedAt == Some(Last(h).started))
    && (l.status == Processing ==>
          h != [] && l.owner == Some(Last(h).owner) && l.leaseExpiresAt == Some(Last(h).expires))
  }

  ghost predicate RowOk(row: Row, h: seq<Lease>) {
    ValidContent(row.content) && RowChecks(row) && Shows(row.life, h) && Consecutive(h)
  }

  ghost predicate RowsOk(rows: Table, leases: map<EventId, seq<Lease>>) {
    leases.Keys == rows.Keys && forall id | id in rows :: RowOk(rows[id], leases[id])
  }

  lemma NewRowOk(c: Content)
    requires ValidContent(c)
    ensures RowOk(Row(c, NEW_LIFE), [])
  {
    ValidContentPassesChecks(c);
  }

  /** A claim extends the history by a window that starts after the last one ended. */
  lemma ClaimedRowOk(row: Row, h: seq<Lease>, owner: WorkerId, now: int, leaseMs: int)
    requires RowOk(row, h) && Claimable(row, now) && row.life.attempts < MAX_ATTEMPTS
    requires MIN_LEASE_MS <= leaseMs <= MAX_LEASE_MS
    ensures RowOk(Claimed(row, owner, now, leaseMs), h + [Lease(owner, now, now + leaseMs * 1000)])
  {
    ClaimPassesChecks(row, owner, now, leaseMs);
    assert h != [] ==> Last(h).expires <= now;
  }

  lemma CompletedRowOk(row: Row, h: seq<Lease>, owner: WorkerId, now: int)
    requires RowOk(row, h) && Owns(row, owner)
    ensures RowOk(Completed(row, now), h)
  {
    CompletionPassesChecks(row, owner, now);
  }

  // ---------------------------------------------------------------- locks

  ghost function LocksOf(claims: map<StmtId, Claim>, st: StmtId): set<EventId> {
    if st in claims && claims[st].Scanning? then claims[st].locked else {}
  }

  ghost function HeldBy(tasks: map<TaskId, Task>, t: TaskId): set<EventId> {
    if t in tasks && tasks[t].stage.Holding? then {tasks[t].event} else {}
  }

  /** No row is locked by two statements. */
  ghost predicate LocksApart(claims: map<StmtId, Claim>, tasks: map<TaskId, Task>) {
    && (forall st, u | st != u :: LocksOf(claims, st) !! LocksOf(claims, u))
    && (forall st, t :: LocksOf(claims, st) !! HeldBy(tasks, t))
    && (forall t, u | t != u :: HeldBy(tasks, t) !! HeldBy(tasks, u))
  }

  ghost predicate NoRepeats(ids: seq<EventId>) {
    forall i, j | 0 <= i < j < |ids| :: ids[i] != ids[j]
  }

  /** What holds of one claim statement: the rows it chose are its own, and claimable. */
  ghost predicate ClaimOk(c: Claim, rows: Table) {
    match c
    case Scanning(_, limit, leaseMs, now, queue, locked, chosen) =>
      && MIN_LEASE_MS <= leaseMs <= MAX_LEASE_MS
      && locked <= rows.Keys
      && NoRepeats(queue) && (forall id | id in queue :: id in rows && id !in locked)
      && NoRepeats(chosen) && |chosen| <= limit
      && (forall id | id in chosen :: id in locked && Claimable(rows[id], now))
    case Returned(_, batch, _) => forall id | id in batch :: id in rows
    case Dropped(_, batch) => forall id | id in batch :: id in rows
  }

  ghost predicate TaskOk(t: Task, rows: Table) {
    && t.event in rows
    && (t.stage.Holding? ==> Owns(rows[t.event], t.owner))
  }

  ghost predicate ClaimsOk(claims: map<StmtId, Claim>, rows: Table) {
    forall st | st in claims :: ClaimOk(claims[st], rows)
  }

  ghost predicate TasksOk(tasks: map<TaskId, Task>, rows: Table) {
    forall t | t in tasks :: TaskOk(tasks[t], rows)
  }

  ghost predicate LockInv(s: State) {
    && ClaimsOk(s.claims, s.rows)
    && TasksOk(s.tasks, s.rows)
    && LocksApart(s.claims, s.tasks)
  }

  ghost predicate LeaseInv(s: State) {
    RowsOk(s.rows, s.leases) && LockInv(s)
  }

  lemma LeaseInvInit()
    ensures LeaseInv(INIT)
  {
  }

  // ---------------------------------------------------------------- frames

  /** The tables agree outside `ids`. */
  ghost predicate SameOutside(rows: Table, rows': Table, ids: set<EventId>) {
    && rows.Keys <= rows'.Keys
    && forall id | id in rows && id !in ids :: rows'[id] == rows[id]
  }

  lemma ClaimOkKept(c: Claim, rows: Table, rows': Table, ids: set<EventId>)
    requires ClaimOk(c, rows) && SameOutside(rows, rows', ids)
    requires c.Scanning? ==> c.locked !! ids
    ensures ClaimOk(c, rows')
  {
  }

  lemma TaskOkKept(t: Task, rows: Table, rows': Table, ids: set<EventId>)
    requires TaskOk(t, rows) && SameOutside(rows, rows', ids)
    requires t.stage.Holding? ==> t.event !in ids
    ensures TaskOk(t, rows')
  {
  }

  /** Rows change only where `st` has its locks. */
  lemma ClaimRowsFrame(
    claims: map<StmtId, Claim>, tasks: map<TaskId, Task>, rows: Table, rows': Table, ids: set<EventId>, st: StmtId)
    requires ClaimsOk(claims, rows) && TasksOk(tasks, rows) && LocksApart(claims, tasks)
    requires SameOutside(rows, rows', ids) && ids <= LocksOf(claims, st)
    ensures TasksOk(tasks, rows')
    ensures forall u | u in claims && u != st :: ClaimOk(claims[u], rows')
  {
    forall t | t in tasks ensures TaskOk(tasks[t], rows') {
      assert LocksOf(claims, st) !! HeldBy(tasks, t);
      TaskOkKept(tasks[t], rows, rows', ids);
    }
    forall u | u in claims && u != st ensures ClaimOk(claims[u], rows') {
      assert LocksOf(claims, st) !! LocksOf(claims, u);
      ClaimOkKept(claims[u], rows, rows', ids);
    }
  }

  /** A row changes only where task `t` holds it. */
  lemma HoldFrame(claims: map<StmtId, Claim>, tasks: map<TaskId, Task>, rows: Table, rows': Table, t: TaskId)
    requires ClaimsOk(claims, rows) && TasksOk(tasks, rows) && LocksApart(claims, tasks)
    requires SameOutside(rows, rows', HeldBy(tasks, t))
    ensures ClaimsOk(claims, rows')
    ensures forall u | u in tasks && u != t :: TaskOk(tasks[u], rows')
  {
    forall st | st in claims ensures ClaimOk(claims[st], rows') {
      assert LocksOf(claims, st) !! HeldBy(tasks, t);
      ClaimOkKept(claims[st], rows, rows', HeldBy(tasks, t));
    }
    forall u | u in tasks && u != t ensures TaskOk(tasks[u], rows') {
      assert HeldBy(tasks, u) !! HeldBy(tasks, t);
      TaskOkKept(tasks[u], rows, rows', HeldBy(tasks, t));
    }
  }

  lemma LocksShrink(
    claims: map<StmtId, Claim>, claims': map<StmtId, Claim>, tasks: map<TaskId, Task>, tasks': map<TaskId, Task>)
    requires LocksApart(claims, tasks)
    requires forall st :: LocksOf(claims', st) <= LocksOf(claims, st)
    requires forall t :: HeldBy(tasks', t) <= HeldBy(tasks, t)
    ensures LocksApart(claims', tasks')
  {
  }

  lemma LocksGrow(
    claims: map<StmtId, Claim>, claims': map<StmtId, Claim>, tasks: map<TaskId, Task>, st: StmtId, id: EventId)
    requires LocksApart(claims, tasks)
    requires LocksOf(claims', st) <= LocksOf(claims, st) + {id}
    requires forall u | u != st :: LocksOf(claims', u) == LocksOf(claims, u) && id !in LocksOf(claims, u)
    requires forall t :: id !in HeldBy(tasks, t)
    ensures LocksApart(claims', tasks)
  {
  }

  lemma HoldsGrow(
    claims: map<StmtId, Claim>, tasks: map<TaskId, Task>, tasks': map<TaskId, Task>, t: TaskId, id: EventId)
    requires LocksApart(claims, tasks)
    requires HeldBy(tasks', t) <= {id}
    requires forall u | u != t :: HeldBy(tasks', u) == HeldBy(tasks, u) && id !in HeldBy(tasks, u)
    requires forall st :: id !in LocksOf(claims, st)
    ensures LocksApart(claims, tasks')
  {
  }

  // ---------------------------------------------------------------- admission

  lemma InsertedRowsOk(rows: Table, leases: map<EventId, seq<Lease>>, id: EventId, c: Content)
    requires RowsOk(rows, leases) && ValidContent(c)
    ensures RowsOk(rows[id := Row(c, NEW_LIFE)], leases[id := []])
  {
    NewRowOk(c);
  }

  lemma CommitInsertLocks(s: State, s': State, tx: TxId, delivered: bool)
    requires LockInv(s) && CommitInsert(s, s', tx, delivered) && s.admissions[tx].req.id !in s.rows
    ensures LockInv(s')
  {
    assert SameOutside(s.rows, s'.rows, {});
    forall st | st in s.claims ensures ClaimOk(s.claims[st], s'.rows) {
      ClaimOkKept(s.claims[st], s.rows, s'.rows, {});
    }
    forall t | t in s.tasks ensures TaskOk(s.tasks[t], s'.rows) {
      TaskOkKept(s.tasks[t], s.rows, s'.rows, {});
    }
  }

  lemma QuietAdmitKeeps(s: State, s': State, step: AdmitStep)
    requires AdmitNext(s, s', step) && !step.CommitInsertStep?
    ensures s' == s.(admissions := s'.admissions, served := s'.served)
  {
    if !step.CommitLookupStep? {
      AdmissionProofs.QuietAdmit(s, s', step);
    }
  }

  lemma AdmitStepsKeep(s: State, s': State, step: AdmitStep)
    requires LeaseInv(s) && AdmitNext(s, s', step)
    requires step.CommitInsertStep? ==>
               s.admissions[step.tx].req.id !in s.rows && ValidContent(s.admissions[step.tx].req.content)
    ensures LeaseInv(s')
  {
    if step.CommitInsertStep? {
      var req := s.admissions[step.tx].req;
      InsertedRowsOk(s.rows, s.leases, req.id, req.content);
      CommitInsertLocks(s, s', step.tx, step.delivered);
    } else {
      QuietAdmitKeeps(s, s', step);
    }
  }

  // ---------------------------------------------------------------- claiming

  lemma ClaimChangeKeeps(s: State, s': State, st: StmtId, c: Claim)
    requires LockInv(s) && s' == s.(claims := s.claims[st := c])
    requires ClaimOk(c, s.rows) && LocksOf(s'.claims, st) <= LocksOf(s.claims, st)
    ensures LockInv(s')
  {
    assert forall u | u != st :: LocksOf(s'.claims, u) == LocksOf(s.claims, u);
    LocksShrink(s.claims, s'.claims, s.tasks, s.tasks);
  }

  lemma CandidatesNoRepeats(rows: Table, now: int, queue: seq<EventId>)
    requires IsCandidates(rows, now, queue)
    ensures NoRepeats(queue)
  {
    forall i, j | 0 <= i < j < |queue| ensures queue[i] != queue[j] {
      assert Older(rows, queue[i], queue[j]);
    }
  }

  lemma BeginClaimKeeps(
    s: State, s': State, st: StmtId, owner: WorkerId, limit: nat, leaseMs: int, now: int, queue: seq<EventId>)
    requires LockInv(s) && BeginClaim(s, s', st, owner, limit, leaseMs, now, queue)
    ensures LockInv(s')
  {
    CandidatesNoRepeats(s.rows, now, queue);
    ClaimChangeKeeps(s, s', st, Scanning(owner, limit, leaseMs, now, queue, {}, []));
  }

  lemma PassedOk(c: Claim, rows: Table)
    requires ClaimOk(c, rows) && c.Scanning? && c.queue != []
    ensures ClaimOk(c.(queue := c.queue[1..]), rows)
    ensures c.queue[0] in rows && c.queue[0] !in c.locked && c.queue[0] !in c.queue[1..]
  {
    assert c.queue[0] in c.queue;
  }

  lemma LockedOk(c: Claim, rows: Table, id: EventId)
    requires ClaimOk(c, rows) && c.Scanning? && id in rows && id !in c.queue
    ensures ClaimOk(c.(locked := c.locked + {id}), rows)
  {
  }

  lemma ChosenOk(c: Claim, rows: Table, id: EventId)
    requires ClaimOk(c, rows) && c.Scanning? && id in c.locked && id !in c.chosen
    requires Claimable(rows[id], c.now) && |c.chosen| < c.limit
    ensures ClaimOk(c.(chosen := c.chosen + [id]), rows)
  {
  }

  lemma VisitedOk(s: State, st: StmtId)
    requires IsScanning(s, st) && ClaimOk(s.claims[st], s.rows)
    requires s.claims[st].queue != [] && |s.claims[st].chosen| < s.claims[st].limit
    ensures s.claims[st].queue[0] in s.rows && ClaimOk(Visited(s, st), s.rows)
  {
    var c := s.claims[st];
    var id := c.queue[0];
    PassedOk(c, s.rows);
    if !LockedAgainstClaim(s, st, id) {
      var passed := c.(queue := c.queue[1..]);
      LockedOk(passed, s.rows, id);
      if Claimable(s.rows[id], c.now) {
        ChosenOk(passed.(locked := passed.locked + {id}), s.rows, id);
      }
    }
  }

  lemma UnlockedIsFree(s: State, st: StmtId, id: EventId)
    requires !LockedAgainstClaim(s, st, id)
    ensures forall u | u != st :: id !in LocksOf(s.claims, u)
    ensures forall t :: id !in HeldBy(s.tasks, t)
  {
    forall u | u != st ensures id !in LocksOf(s.claims, u) {
      assert !ScanLocks(s, u, id);
    }
    forall t ensures id !in HeldBy(s.tasks, t) {
      assert !HoldLocks(s, t, id);
    }
  }

  lemma VisitKeeps(s: State, s': State, st: StmtId)
    requires LockInv(s) && Visit(s, s', st)
    ensures LockInv(s')
  {
    assert ClaimOk(s.claims[st], s.rows);
    VisitedOk(s, st);
    var id := s.claims[st].queue[0];
    if LockedAgainstClaim(s, st, id) {
      ClaimChangeKeeps(s, s', st, Visited(s, st));
    } else {
      UnlockedIsFree(s, st, id);
      LocksGrow(s.claims, s'.claims, s.tasks, st, id);
    }
  }

  /** One row and its history after a claim. */
  lemma ClaimedRowOkAt(rows: Table, leases: map<EventId, seq<Lease>>, c: Claim, id: EventId)
    requires c.Scanning? && MIN_LEASE_MS <= c.leaseMs <= MAX_LEASE_MS
    requires id in rows && id in leases && RowOk(rows[id], leases[id])
    requires id in c.chosen ==> Claimable(rows[id], c.now) && rows[id].life.attempts < MAX_ATTEMPTS
    ensures RowOk(ClaimRows(rows, IdSet(c.chosen), c.owner, c.now, c.leaseMs)[id],
                  ExtendLeases(leases, IdSet(c.chosen), ClaimLease(c))[id])
  {
    if id in c.chosen {
      ClaimedRowOk(rows[id], leases[id], c.owner, c.now, c.leaseMs);
    }
  }

  lemma ClaimedRowsOk(rows: Table, leases: map<EventId, seq<Lease>>, c: Claim)
    requires RowsOk(rows, leases) && c.Scanning? && MIN_LEASE_MS <= c.leaseMs <= MAX_LEASE_MS
    requires forall id | id in c.chosen && id in rows ::
               Claimable(rows[id], c.now) && rows[id].life.attempts < MAX_ATTEMPTS
    ensures RowsOk(ClaimRows(rows, IdSet(c.chosen), c.owner, c.now, c.leaseMs),
                   ExtendLeases(leases, IdSet(c.chosen), ClaimLease(c)))
  {
    forall id | id in rows
      ensures RowOk(ClaimRows(rows, IdSet(c.chosen), c.owner, c.now, c.leaseMs)[id],
                    ExtendLeases(leases, IdSet(c.chosen), ClaimLease(c))[id])
    {
      ClaimedRowOkAt(rows, leases, c, id);
    }
  }

  lemma CommitClaimRows(s: State, s': State, st: StmtId, delivered: bool)
    requires RowsOk(s.rows, s.leases) && ClaimsOk(s.claims, s.rows) && CommitClaim(s, s', st, delivered)
    ensures RowsOk(s'.rows, s'.leases)
  {
    var c := s.claims[st];
    assert ClaimOk(c, s.rows);
    assert forall id | id in c.chosen :: id in IdSet(c.chosen);
    ClaimedRowsOk(s.rows, s.leases, c);
  }

  lemma CommitClaimLocks(s: State, s': State, st: StmtId, delivered: bool)
    requires LockInv(s) && CommitClaim(s, s', st, delivered)
    ensures LockInv(s')
  {
    var ids := IdSet(s.claims[st].chosen);
    assert ClaimOk(s.claims[st], s.rows);
    assert SameOutside(s.rows, s'.rows, ids);
    ClaimRowsFrame(s.claims, s.tasks, s.rows, s'.rows, ids, st);
    assert ClaimOk(s'.claims[st], s'.rows);
    LocksShrink(s.claims, s'.claims, s.tasks, s.tasks);
  }

  lemma SpawnKeeps(s: State, s': State, t: TaskId, st: StmtId, k: nat)
    requires LockInv(s) && Spawn(s, s', t, st, k)
    ensures LockInv(s')
  {
    assert ClaimOk(s.claims[st], s.rows);
    assert s.claims[st].batch[k] in s.claims[st].batch;
    LocksShrink(s.claims, s'.claims, s.tasks, s'.tasks);
  }

  lemma QuietClaimKeeps(s: State, s': State, step: ClaimStep)
    requires ClaimNext(s, s', step) && !step.CommitClaimStep?
    ensures s' == s.(claims := s'.claims, tasks := s'.tasks)
  {
  }

  lemma ClaimStepsLocks(s: State, s': State, step: ClaimStep)
    requires LockInv(s) && ClaimNext(s, s', step)
    ensures LockInv(s')
  {
    match step
    case BeginClaimStep(st, owner, limit, leaseMs, now, queue) =>
      BeginClaimKeeps(s, s', st, owner, limit, leaseMs, now, queue);
    case VisitStep(st) => VisitKeeps(s, s', st);
    case CommitClaimStep(st, delivered) => CommitClaimLocks(s, s', st, delivered);
    case AbortClaimStep(st) => ClaimChangeKeeps(s, s', st, Dropped(s.claims[st].owner, []));
    case SpawnStep(t, st, k) => SpawnKeeps(s, s', t, st, k);
  }

  lemma ClaimStepsKeep(s: State, s': State, step: ClaimStep)
    requires LeaseInv(s) && ClaimNext(s, s', step)
    ensures LeaseInv(s')
  {
    ClaimStepsLocks(s, s', step);
    if step.CommitClaimStep? {
      CommitClaimRows(s, s', step.st, step.delivered);
    } else {
      QuietClaimKeeps(s, s', step);
    }
  }

  // ---------------------------------------------------------------- completion

  lemma TaskChangeKeeps(s: State, s': State, t: TaskId, stage: Stage)
    requires LockInv(s) && t in s.tasks && s' == WithStage(s, t, stage) && !stage.Holding?
    ensures LockInv(s')
  {
    assert TaskOk(s.tasks[t], s.rows);
    LocksShrink(s.claims, s.claims, s.tasks, s'.tasks);
  }

  lemma FreeForTask(s: State, t: TaskId, id: EventId)
    requires !LockedAgainstTask(s, t, id)
    ensures forall st :: id !in LocksOf(s.claims, st)
    ensures forall u | u != t :: id !in HeldBy(s.tasks, u)
  {
    forall st ensures id !in LocksOf(s.claims, st) {
      assert !ScanLocks(s, st, id);
    }
    forall u | u != t ensures id !in HeldBy(s.tasks, u) {
      assert !HoldLocks(s, u, id);
    }
  }

  lemma LockCompleteKeeps(s: State, s': State, t: TaskId)
    requires LockInv(s) && LockComplete(s, s', t)
    ensures LockInv(s')
  {
    var id := s.tasks[t].event;
    if Owns(s.rows[id], s.tasks[t].owner) {
      FreeForTask(s, t, id);
      HoldsGrow(s.claims, s.tasks, s'.tasks, t, id);
    } else {
      TaskChangeKeeps(s, s', t, Answered(No));
    }
  }

  lemma UpdatedRowsOk(rows: Table, leases: map<EventId, seq<Lease>>, id: EventId, row: Row)
    requires RowsOk(rows, leases) && id in rows && RowOk(row, leases[id])
    ensures RowsOk(rows[id := row], leases)
  {
  }

  lemma CommitCompleteRows(s: State, s': State, t: TaskId)
    requires RowsOk(s.rows, s.leases) && TasksOk(s.tasks, s.rows) && CommitComplete(s, s', t)
    ensures RowsOk(s'.rows, s'.leases)
  {
    var id := s.tasks[t].event;
    assert TaskOk(s.tasks[t], s.rows);
    CompletedRowOk(s.rows[id], s.leases[id], s.tasks[t].owner, s.tasks[t].stage.now);
    UpdatedRowsOk(s.rows, s.leases, id, Completed(s.rows[id], s.tasks[t].stage.now));
  }

  lemma CommitCompleteLocks(s: State, s': State, t: TaskId)
    requires LockInv(s) && CommitComplete(s, s', t)
    ensures LockInv(s')
  {
    assert HeldBy(s.tasks, t) == {s.tasks[t].event};
    assert SameOutside(s.rows, s'.rows, HeldBy(s.tasks, t));
    HoldFrame(s.claims, s.tasks, s.rows, s'.rows, t);
    assert TaskOk(s'.tasks[t], s'.rows);
    LocksShrink(s.claims, s'.claims, s.tasks, s'.tasks);
  }

  lemma AbandonKeeps(s: State, s': State, ts: set<TaskId>)
    requires LockInv(s) && Abandon(s, s', ts)
    ensures LockInv(s')
  {
    forall t | t in s'.tasks ensures TaskOk(s'.tasks[t], s'.rows) {
      assert TaskOk(s.tasks[t], s.rows);
    }
    LocksShrink(s.claims, s'.claims, s.tasks, s'.tasks);
  }

  lemma QuietTaskKeeps(s: State, s': State, step: TaskStep)
    requires TaskNext(s, s', step) && !step.CommitCompleteStep?
    ensures s' == s.(tasks := s'.tasks)
  {
  }

  lemma TaskStepsLocks(s: State, s': State, step: TaskStep)
    requires LockInv(s) && TaskNext(s, s', step)
    ensures LockInv(s')
  {
    match step
    case LockCompleteStep(t) => LockCompleteKeeps(s, s', t);
    case CommitCompleteStep(t) => CommitCompleteLocks(s, s', t);
    case AbandonStep(ts) => AbandonKeeps(s, s', ts);
    case _ => TaskChangeKeeps(s, s', step.t, s'.tasks[step.t].stage);
  }

  lemma TaskStepsKeep(s: State, s': State, step: TaskStep)
    requires LeaseInv(s) && TaskNext(s, s', step)
    ensures LeaseInv(s')
  {
    TaskStepsLocks(s, s', step);
    if step.CommitCompleteStep? {
      CommitCompleteRows(s, s', step.t);
    } else {
      QuietTaskKeeps(s, s', step);
    }
  }
}
