/**
 The whole system as a state machine: one PostgreSQL table, any number of admission
 transactions, claim statements and worker tasks, interleaved step by step.

 A step is what PostgreSQL or a process does between two points where others can
 intervene.  `now` is the stamp of one transaction; nothing relates the stamps of
 different transactions.  Crashes, aborts, statement errors and lost replies are steps.
 */
module Protocol {
  import opened Utf8
  import opened EventModel
  import opened Schema
  import opened Ledger

  type StmtId = nat
  type TaskId = nat

  // ---------------------------------------------------------------- state

  /** Where an admission transaction stands. */
  datatype Phase =
    | Begun                           // INSERT not yet decided; may be waiting
    | Inserted                        // its row is in the index, not committed
    | Blocked                         // INSERT did nothing: the scope is committed already
    | Found(outcome: Outcome)         // the lookup answered
    | Broken                          // the lookup found no row: `Inconsistent`
    | Closed(reply: Option<Outcome>)  // over; what the caller received, if anything

  datatype Admission = Admission(req: Request, phase: Phase)

  /** A claim statement. `queue` holds the candidates of its snapshot that are not visited yet. */
  datatype Claim =
    | Scanning(
        owner: WorkerId, limit: nat, leaseMs: int, now: int,
        queue: seq<EventId>, locked: set<EventId>, chosen: seq<EventId>)
    | Returned(owner: WorkerId, batch: seq<EventId>, spawned: set<nat>)
    | Dropped(owner: WorkerId, batch: seq<EventId>)  // aborted with no batch, or its reply was lost

  datatype Reply = Yes | No | Error

  datatype TaskResult = CountedProcessed | CountedFailed | CountedLost | ReplyLost

  /** Where a task stands: in the processor, then in its completion statement. */
  datatype Stage =
    | Running
    | Completing(now: int)            // matched its snapshot; may be waiting for the row
    | Holding(now: int)               // has the row, update not committed
    | Answered(reply: Reply)          // statement over, reply on its way
    | Ended(result: TaskResult)

  /** `gone`: its process crashed or aborted it; the statement may still run on the server. */
  datatype Task = Task(owner: WorkerId, event: EventId, claim: StmtId, stage: Stage, gone: bool)

  datatype Lease = Lease(owner: WorkerId, started: int, expires: int)

  datatype State = State(
    rows: Table,
    admissions: map<TxId, Admission>,
    claims: map<StmtId, Claim>,
    tasks: map<TaskId, Task>,
    // History, which no step reads.
    served: seq<Served>,                   // committed admissions, in commit order
    leases: map<EventId, seq<Lease>>,      // committed claims of each event, in commit order
    lastClaim: map<EventId, StmtId>,       // the statement of the last of these
    completer: map<EventId, TaskId>,       // the task whose completion committed
    moved: nat,                            // rows moved by committed claims
    reclaimed: nat)                        // of these, rows taken over from an expired lease

  const INIT := State(map[], map[], map[], map[], [], map[], map[], map[], 0, 0)

  // ---------------------------------------------------------------- admission

  ghost predicate BeginAdmit(s: State, s': State, tx: TxId, req: Request) {
    && tx !in s.admissions
    && ValidContent(req.content)
    && s' == s.(admissions := s.admissions[tx := Admission(req, Begun)])
  }

  ghost predicate InPhase(s: State, tx: TxId, phase: Phase) {
    tx in s.admissions && s.admissions[tx].phase == phase
  }

  /** Another transaction has an uncommitted row that this insert must wait for. */
  ghost predicate MustWait(s: State, tx: TxId)
    requires tx in s.admissions
  {
    exists u :: u != tx && InPhase(s, u, Inserted)
      && (|| ScopeOf(s.admissions[u].req.content) == ScopeOf(s.admissions[tx].req.content)
          || s.admissions[u].req.id == s.admissions[tx].req.id)
  }

  function WithPhase(s: State, tx: TxId, phase: Phase): State
    requires tx in s.admissions
  {
    s.(admissions := s.admissions[tx := s.admissions[tx].(phase := phase)])
  }

  /** `INSERT .. ON CONFLICT DO NOTHING` inserts. */
  ghost predicate Insert(s: State, s': State, tx: TxId) {
    && InPhase(s, tx, Begun)
    && !MustWait(s, tx)
    && !ScopeTaken(s.rows, ScopeOf(s.admissions[tx].req.content))
    && s.admissions[tx].req.id !in s.rows
    && s' == WithPhase(s, tx, Inserted)
  }

  /** The insert meets a committed row of its scope and does nothing. */
  ghost predicate InsertConflicts(s: State, s': State, tx: TxId) {
    && InPhase(s, tx, Begun)
    && ScopeTaken(s.rows, ScopeOf(s.admissions[tx].req.content))
    && s' == WithPhase(s, tx, Blocked)
  }

  /** The lookup reads a new snapshot: `found` is a row of the scope, if there is one. */
  ghost predicate Lookup(s: State, s': State, tx: TxId, found: Option<EventId>) {
    && InPhase(s, tx, Blocked)
    && var req := s.admissions[tx].req;
       match found
       case None =>
         && !ScopeTaken(s.rows, ScopeOf(req.content))
         && s' == WithPhase(s, tx, Broken)
       case Some(id) =>
         && id in s.rows && ScopeOf(s.rows[id].content) == ScopeOf(req.content)
         && s' == WithPhase(s, tx, Found(
                    if s.rows[id].content.fingerprint == req.content.fingerprint then Replayed(id) else Conflict))
  }

  function ReplyOf(outcome: Outcome, delivered: bool): Phase {
    Closed(if delivered then Some(outcome) else None)
  }

  ghost predicate CommitInsert(s: State, s': State, tx: TxId, delivered: bool) {
    && InPhase(s, tx, Inserted)
    && var req := s.admissions[tx].req;
       s' == WithPhase(s, tx, ReplyOf(Created(req.id), delivered)).(
               rows := s.rows[req.id := Row(req.content, NEW_LIFE)],
               leases := s.leases[req.id := []],
               served := s.served + [Served(tx, req, Created(req.id))])
  }

  ghost predicate CommitLookup(s: State, s': State, tx: TxId, delivered: bool) {
    && tx in s.admissions && s.admissions[tx].phase.Found?
    && var outcome := s.admissions[tx].phase.outcome;
       s' == WithPhase(s, tx, ReplyOf(outcome, delivered)).(
               served := s.served + [Served(tx, s.admissions[tx].req, outcome)])
  }

  /** Error, rollback, timeout, primary-key violation or a crash: nothing is committed. */
  ghost predicate AbortAdmit(s: State, s': State, tx: TxId) {
    && tx in s.admissions && !s.admissions[tx].phase.Closed?
    && s' == WithPhase(s, tx, Closed(None))
  }

  // ---------------------------------------------------------------- claiming

  ghost predicate IsScanning(s: State, st: StmtId) {
    st in s.claims && s.claims[st].Scanning?
  }

  ghost predicate IsHolding(s: State, t: TaskId) {
    t in s.tasks && s.tasks[t].stage.Holding?
  }

  ghost predicate ScanLocks(s: State, st: StmtId, id: EventId) {
    IsScanning(s, st) && id in s.claims[st].locked
  }

  ghost predicate HoldLocks(s: State, t: TaskId, id: EventId) {
    IsHolding(s, t) && s.tasks[t].event == id
  }

  /** A statement other than claim `st` has the row. */
  ghost predicate LockedAgainstClaim(s: State, st: StmtId, id: EventId) {
    || (exists u :: u != st && ScanLocks(s, u, id))
    || (exists t :: HoldLocks(s, t, id))
  }

  ghost predicate BeginClaim(
    s: State, s': State, st: StmtId, owner: WorkerId, limit: nat, leaseMs: int, now: int, queue: seq<EventId>)
  {
    && st !in s.claims
    && limit > 0
    && MIN_LEASE_MS <= leaseMs <= MAX_LEASE_MS
    && IsCandidates(s.rows, now, queue)
    && s' == s.(claims := s.claims[st := Scanning(owner, limit, leaseMs, now, queue, {}, [])])
  }

  /** The claim after it reaches its next candidate: skip it if locked, else lock and recheck. */
  ghost function Visited(s: State, st: StmtId): Claim
    requires IsScanning(s, st) && s.claims[st].queue != [] && s.claims[st].queue[0] in s.rows
  {
    var c := s.claims[st];
    var id := c.queue[0];
    if LockedAgainstClaim(s, st, id) then c.(queue := c.queue[1..])
    else if !Claimable(s.rows[id], c.now) then c.(queue := c.queue[1..], locked := c.locked + {id})
    else c.(queue := c.queue[1..], locked := c.locked + {id}, chosen := c.chosen + [id])
  }

  ghost predicate Visit(s: State, s': State, st: StmtId) {
    && IsScanning(s, st)
    && |s.claims[st].chosen| < s.claims[st].limit
    && s.claims[st].queue != [] && s.claims[st].queue[0] in s.rows
    && s' == s.(claims := s.claims[st := Visited(s, st)])
  }

  function ExtendLeases(leases: map<EventId, seq<Lease>>, ids: set<EventId>, lease: Lease): map<EventId, seq<Lease>> {
    map id | id in leases :: if id in ids then leases[id] + [lease] else leases[id]
  }

  function MarkClaimed(lastClaim: map<EventId, StmtId>, ids: set<EventId>, st: StmtId): map<EventId, StmtId> {
    map id | id in lastClaim.Keys + ids :: if id in ids then st else lastClaim[id]
  }

  function Reclaims(rows: Table, ids: set<EventId>): set<EventId> {
    set id | id in ids && id in rows && rows[id].life.status == Processing
  }

  ghost predicate DoneScanning(c: Claim) {
    c.Scanning? && (c.queue == [] || |c.chosen| == c.limit)
  }

  function ClaimLease(c: Claim): Lease
    requires c.Scanning?
  {
    Lease(c.owner, c.now, c.now + c.leaseMs * 1000)
  }

  /** The update commits; a counter at its maximum would make it fail instead. */
  ghost predicate CommitClaim(s: State, s': State, st: StmtId, delivered: bool) {
    && st in s.claims && DoneScanning(s.claims[st])
    && var c := s.claims[st];
       var ids := IdSet(c.chosen);
       && (forall id | id in ids && id in s.rows :: s.rows[id].life.attempts < MAX_ATTEMPTS)
       && s' == s.(
            rows := ClaimRows(s.rows, ids, c.owner, c.now, c.leaseMs),
            claims := s.claims[st := if delivered then Returned(c.owner, c.chosen, {}) else Dropped(c.owner, c.chosen)],
            leases := ExtendLeases(s.leases, ids, ClaimLease(c)),
            lastClaim := MarkClaimed(s.lastClaim, ids, st),
            moved := s.moved + |c.chosen|,
            reclaimed := s.reclaimed + |Reclaims(s.rows, ids)|)
  }

  ghost predicate AbortClaim(s: State, s': State, st: StmtId) {
    && IsScanning(s, st)
    && s' == s.(claims := s.claims[st := Dropped(s.claims[st].owner, [])])
  }

  /** The worker spawns the task of one claimed event. */
  ghost predicate Spawn(s: State, s': State, t: TaskId, st: StmtId, k: nat) {
    && t !in s.tasks
    && st in s.claims && s.claims[st].Returned?
    && k < |s.claims[st].batch| && k !in s.claims[st].spawned
    && var c := s.claims[st];
       s' == s.(
         claims := s.claims[st := c.(spawned := c.spawned + {k})],
         tasks := s.tasks[t := Task(c.owner, c.batch[k], st, Running, false)])
  }

  // ---------------------------------------------------------------- completion

  function WithStage(s: State, t: TaskId, stage: Stage): State
    requires t in s.tasks
  {
    s.(tasks := s.tasks[t := s.tasks[t].(stage := stage)])
  }

  /** Another statement than the completion of `t` has the row. */
  ghost predicate LockedAgainstTask(s: State, t: TaskId, id: EventId) {
    || (exists st :: ScanLocks(s, st, id))
    || (exists u :: u != t && HoldLocks(s, u, id))
  }

  /** The processor failed or panicked, or no statement could be sent. */
  ghost predicate FailTask(s: State, s': State, t: TaskId) {
    && t in s.tasks && s.tasks[t].stage.Running? && !s.tasks[t].gone
    && s' == WithStage(s, t, Ended(CountedFailed))
  }

  /** The completion evaluates its WHERE clause on its snapshot. */
  ghost predicate StartComplete(s: State, s': State, t: TaskId, now: int) {
    && t in s.tasks && s.tasks[t].stage.Running? && !s.tasks[t].gone
    && s.tasks[t].event in s.rows
    && s' == WithStage(s, t,
               if Owns(s.rows[s.tasks[t].event], s.tasks[t].owner) then Completing(now) else Answered(No))
  }

  /** It gets the row lock, after waiting if need be, and evaluates the WHERE clause again. */
  ghost predicate LockComplete(s: State, s': State, t: TaskId) {
    && t in s.tasks && s.tasks[t].stage.Completing?
    && s.tasks[t].event in s.rows
    && !LockedAgainstTask(s, t, s.tasks[t].event)
    && s' == WithStage(s, t,
               if Owns(s.rows[s.tasks[t].event], s.tasks[t].owner)
               then Holding(s.tasks[t].stage.now) else Answered(No))
  }

  ghost predicate CommitComplete(s: State, s': State, t: TaskId) {
    && IsHolding(s, t)
    && var id := s.tasks[t].event;
       && id in s.rows
       && s' == WithStage(s, t, Answered(Yes)).(
            rows := s.rows[id := Completed(s.rows[id], s.tasks[t].stage.now)],
            completer := s.completer[id := t])
  }

  ghost predicate FailComplete(s: State, s': State, t: TaskId) {
    && t in s.tasks && (s.tasks[t].stage.Completing? || s.tasks[t].stage.Holding?)
    && s' == WithStage(s, t, Answered(Error))
  }

  /** The task learns the answer, or sees an error because the reply was lost, and counts. */
  ghost predicate Deliver(s: State, s': State, t: TaskId, arrived: bool) {
    && t in s.tasks && s.tasks[t].stage.Answered? && !s.tasks[t].gone
    && s' == WithStage(s, t, Ended(
               if !arrived then ReplyLost
               else match s.tasks[t].stage.reply
                    case Yes => CountedProcessed
                    case No => CountedLost
                    case Error => CountedFailed))
  }

  /** A crash, or the abort at the end of a timed-out shutdown. */
  ghost predicate Abandon(s: State, s': State, ts: set<TaskId>) {
    s' == s.(tasks := map t | t in s.tasks :: if t in ts then s.tasks[t].(gone := true) else s.tasks[t])
  }

  // ---------------------------------------------------------------- runs

  datatype AdmitStep =
    | BeginAdmitStep(tx: TxId, req: Request)
    | InsertStep(tx: TxId)
    | InsertConflictsStep(tx: TxId)
    | LookupStep(tx: TxId, found: Option<EventId>)
    | CommitInsertStep(tx: TxId, delivered: bool)
    | CommitLookupStep(tx: TxId, delivered: bool)
    | AbortAdmitStep(tx: TxId)

  ghost predicate AdmitNext(s: State, s': State, step: AdmitStep) {
    match step
    case BeginAdmitStep(tx, req) => BeginAdmit(s, s', tx, req)
    case InsertStep(tx) => Insert(s, s', tx)
    case InsertConflictsStep(tx) => InsertConflicts(s, s', tx)
    case LookupStep(tx, found) => Lookup(s, s', tx, found)
    case CommitInsertStep(tx, delivered) => CommitInsert(s, s', tx, delivered)
    case CommitLookupStep(tx, delivered) => CommitLookup(s, s', tx, delivered)
    case AbortAdmitStep(tx) => AbortAdmit(s, s', tx)
  }

  datatype ClaimStep =
    | BeginClaimStep(st: StmtId, owner: WorkerId, limit: nat, leaseMs: int, now: int, queue: seq<EventId>)
    | VisitStep(st: StmtId)
    | CommitClaimStep(st: StmtId, delivered: bool)
    | AbortClaimStep(st: StmtId)
    | SpawnStep(t: TaskId, st: StmtId, k: nat)

  ghost predicate ClaimNext(s: State, s': State, step: ClaimStep) {
    match step
    case BeginClaimStep(st, owner, limit, leaseMs, now, queue) =>
      BeginClaim(s, s', st, owner, limit, leaseMs, now, queue)
    case VisitStep(st) => Visit(s, s', st)
    case CommitClaimStep(st, delivered) => CommitClaim(s, s', st, delivered)
    case AbortClaimStep(st) => AbortClaim(s, s', st)
    case SpawnStep(t, st, k) => Spawn(s, s', t, st, k)
  }

  datatype TaskStep =
    | FailTaskStep(t: TaskId)
    | StartCompleteStep(t: TaskId, now: int)
    | LockCompleteStep(t: TaskId)
    | CommitCompleteStep(t: TaskId)
    | FailCompleteStep(t: TaskId)
    | DeliverStep(t: TaskId, arrived: bool)
    | AbandonStep(ts: set<TaskId>)

  ghost predicate TaskNext(s: State, s': State, step: TaskStep) {
    match step
    case FailTaskStep(t) => FailTask(s, s', t)
    case StartCompleteStep(t, now) => StartComplete(s, s', t, now)
    case LockCompleteStep(t) => LockComplete(s, s', t)
    case CommitCompleteStep(t) => CommitComplete(s, s', t)
    case FailCompleteStep(t) => FailComplete(s, s', t)
    case DeliverStep(t, arrived) => Deliver(s, s', t, arrived)
    case AbandonStep(ts) => Abandon(s, s', ts)
  }

  datatype Step = Admitting(admit: AdmitStep) | Claiming(claim: ClaimStep) | Tasking(task: TaskStep)

  ghost predicate NextStep(s: State, s': State, step: Step) {
    match step
    case Admitting(admit) => AdmitNext(s, s', admit)
    case Claiming(claim) => ClaimNext(s, s', claim)
    case Tasking(task) => TaskNext(s, s', task)
  }

  ghost predicate Next(s: State, s': State) {
    exists step :: NextStep(s, s', step)
  }

  /** States visited one after the other. */
  ghost predicate Path(states: seq<State>) {
    && states != []
    && forall i | 0 <= i < |states| - 1 :: Next(states[i], states[i + 1])
  }

  /** A path from the empty table. */
  ghost predicate Run(states: seq<State>) {
    Path(states) && states[0] == INIT
  }
}
