/**
 Completion under every interleaving: exactly one task completed each `PROCESSED` event,
 and it belonged to the owner of the event's last claim.
 */
module CompletionProofs {
  import opened EventModel
  import opened Schema
  import opened Ledger
  import opened Protocol
  import opened LeaseProofs

  /** The stages of a task whose completion committed. */
  ghost predicate MayHaveWon(stage: Stage) {
    stage == Answered(Yes) || stage == Ended(CountedProcessed) || stage == Ended(ReplyLost)
  }

  /** The stages that only such a task reaches. */
  ghost predicate HasWon(stage: Stage) {
    stage == Answered(Yes) || stage == Ended(CountedProcessed)
  }

  ghost predicate IsProcessed(rows: Table, id: EventId) {
    id in rows && rows[id].life.status == Processed
  }

  ghost predicate CompletedBy(
    rows: Table, leases: map<EventId, seq<Lease>>, id: EventId, tasks: map<TaskId, Task>, t: TaskId)
  {
    && IsProcessed(rows, id)
    && id in leases && leases[id] != []
    && t in tasks && tasks[t].event == id && MayHaveWon(tasks[t].stage)
    && Last(leases[id]).owner == tasks[t].owner
  }

  ghost predicate WinnersRecorded(tasks: map<TaskId, Task>, completer: map<EventId, TaskId>) {
    forall t | t in tasks && HasWon(tasks[t].stage) ::
      tasks[t].event in completer && completer[tasks[t].event] == t
  }

  ghost predicate CompletersOk(s: State) {
    forall id | id in s.completer :: CompletedBy(s.rows, s.leases, id, s.tasks, s.completer[id])
  }

  ghost predicate ProcessedRecorded(rows: Table, completer: map<EventId, TaskId>) {
    forall id | IsProcessed(rows, id) :: id in completer
  }

  ghost predicate DoneInv(s: State) {
    && CompletersOk(s)
    && ProcessedRecorded(s.rows, s.completer)
    && WinnersRecorded(s.tasks, s.completer)
  }

  lemma DoneInvInit()
    ensures DoneInv(INIT)
  {
  }

  /** Rows change, but not the processed ones or their histories. */
  lemma RowsChangeKeeps(s: State, s': State)
    requires DoneInv(s) && s'.tasks == s.tasks && s'.completer == s.completer
    requires forall id :: IsProcessed(s'.rows, id) <==> IsProcessed(s.rows, id)
    requires forall id | IsProcessed(s.rows, id) && id in s.leases :: id in s'.leases && s'.leases[id] == s.leases[id]
    ensures DoneInv(s')
  {
    forall id | id in s'.completer ensures CompletedBy(s'.rows, s'.leases, id, s'.tasks, s'.completer[id]) {
      assert CompletedBy(s.rows, s.leases, id, s.tasks, s.completer[id]);
    }
  }

  /** Tasks change, but a winner stays one and nobody else becomes one. */
  lemma TasksChangeKeeps(s: State, s': State)
    requires DoneInv(s) && s'.rows == s.rows && s'.leases == s.leases && s'.completer == s.completer
    requires forall t | t in s.tasks && MayHaveWon(s.tasks[t].stage) ::
               && t in s'.tasks && MayHaveWon(s'.tasks[t].stage)
               && s'.tasks[t].event == s.tasks[t].event && s'.tasks[t].owner == s.tasks[t].owner
    requires forall t | t in s'.tasks && HasWon(s'.tasks[t].stage) ::
               t in s.tasks && HasWon(s.tasks[t].stage) && s'.tasks[t].event == s.tasks[t].event
    ensures DoneInv(s')
  {
    forall id | id in s'.completer ensures CompletedBy(s'.rows, s'.leases, id, s'.tasks, s'.completer[id]) {
      assert CompletedBy(s.rows, s.leases, id, s.tasks, s.completer[id]);
    }
  }

  lemma CommitInsertKeeps(s: State, s': State, tx: TxId, delivered: bool)
    requires DoneInv(s) && CommitInsert(s, s', tx, delivered) && s.admissions[tx].req.id !in s.rows
    ensures DoneInv(s')
  {
    RowsChangeKeeps(s, s');
  }

  lemma CommitClaimKeeps(s: State, s': State, st: StmtId, delivered: bool)
    requires DoneInv(s) && ClaimsOk(s.claims, s.rows) && CommitClaim(s, s', st, delivered)
    ensures DoneInv(s')
  {
    assert ClaimOk(s.claims[st], s.rows);
    RowsChangeKeeps(s, s');
  }

  lemma QuietClaimStepKeeps(s: State, s': State, step: ClaimStep)
    requires DoneInv(s) && ClaimNext(s, s', step) && !step.CommitClaimStep?
    ensures DoneInv(s')
  {
    TasksChangeKeeps(s, s');
  }

  lemma QuietTaskStepKeeps(s: State, s': State, step: TaskStep)
    requires DoneInv(s) && TaskNext(s, s', step) && !step.CommitCompleteStep?
    ensures DoneInv(s')
  {
    TasksChangeKeeps(s, s');
  }

  /** A completion commits only while its worker owns the row: the worker of the last claim. */
  lemma HolderOwns(s: State, t: TaskId)
    requires LeaseInv(s) && IsHolding(s, t)
    ensures var id := s.tasks[t].event;
            && id in s.rows && Owns(s.rows[id], s.tasks[t].owner)
            && id in s.leases && s.leases[id] != [] && Last(s.leases[id]).owner == s.tasks[t].owner
  {
    assert TaskOk(s.tasks[t], s.rows);
    assert RowOk(s.rows[s.tasks[t].event], s.leases[s.tasks[t].event]);
  }

  lemma RecordedIsProcessed(s: State, id: EventId)
    requires CompletersOk(s) && id in s.completer
    ensures IsProcessed(s.rows, id)
  {
    assert CompletedBy(s.rows, s.leases, id, s.tasks, s.completer[id]);
  }

  lemma CommitCompleteCompleters(s: State, s': State, t: TaskId)
    requires CompletersOk(s) && CommitComplete(s, s', t)
    requires s.tasks[t].event in s.leases && s.leases[s.tasks[t].event] != []
    requires Last(s.leases[s.tasks[t].event]).owner == s.tasks[t].owner
    ensures CompletersOk(s')
  {
    forall x | x in s'.completer ensures CompletedBy(s'.rows, s'.leases, x, s'.tasks, s'.completer[x]) {
      if x != s.tasks[t].event {
        assert CompletedBy(s.rows, s.leases, x, s.tasks, s.completer[x]);
      }
    }
  }

  lemma CommitCompleteKeeps(s: State, s': State, t: TaskId)
    requires DoneInv(s) && LeaseInv(s) && CommitComplete(s, s', t)
    ensures DoneInv(s')
  {
    HolderOwns(s, t);
    if s.tasks[t].event in s.completer {
      RecordedIsProcessed(s, s.tasks[t].event);
    }
    CommitCompleteCompleters(s, s', t);
    CommitCompleteRecorded(s, s', t);
    CommitCompleteWinners(s, s', t);
  }

  lemma CommitCompleteRecorded(s: State, s': State, t: TaskId)
    requires ProcessedRecorded(s.rows, s.completer) && CommitComplete(s, s', t)
    ensures ProcessedRecorded(s'.rows, s'.completer)
  {
    forall x | IsProcessed(s'.rows, x) ensures x in s'.completer {
      assert x == s.tasks[t].event || IsProcessed(s.rows, x);
    }
  }

  lemma CommitCompleteWinners(s: State, s': State, t: TaskId)
    requires WinnersRecorded(s.tasks, s.completer) && CommitComplete(s, s', t) && s.tasks[t].event !in s.completer
    ensures WinnersRecorded(s'.tasks, s'.completer)
  {
  }

  lemma DoneInvNext(s: State, s': State, step: Step)
    requires DoneInv(s) && LeaseInv(s) && NextStep(s, s', step)
    requires step.Admitting? && step.admit.CommitInsertStep? ==> s.admissions[step.admit.tx].req.id !in s.rows
    ensures DoneInv(s')
  {
    match step
    case Admitting(admit) =>
      if admit.CommitInsertStep? {
        CommitInsertKeeps(s, s', admit.tx, admit.delivered);
      } else {
        QuietAdmitKeeps(s, s', admit);
      }
    case Claiming(claim) =>
      if claim.CommitClaimStep? {
        CommitClaimKeeps(s, s', claim.st, claim.delivered);
      } else {
        QuietClaimStepKeeps(s, s', claim);
      }
    case Tasking(task) =>
      if task.CommitCompleteStep? {
        CommitCompleteKeeps(s, s', task.t);
      } else {
        QuietTaskStepKeeps(s, s', task);
      }
  }
}
