/** What every state of every run satisfies, and what no step ever takes back. */
module Runs {
  import opened EventModel
  import opened Schema
  import opened Ledger
  import opened Protocol
  import opened AdmissionProofs
  import opened LeaseProofs
  import opened CompletionProofs
  import opened AccountingProofs

  ghost predicate Inv(s: State) {
    AdmitInv(s) && ContentInv(s) && LeaseInv(s) && DoneInv(s) && CountInv(s)
  }

  lemma InvInit()
    ensures Inv(INIT)
  {
    AdmitInvInit();
    LeaseInvInit();
    DoneInvInit();
    CountInvInit();
  }

  /** A commit inserts a new, valid row. */
  lemma CommitIsFresh(s: State, s': State, m: Slots, step: AdmitStep)
    requires TxInv(s, m) && AdmitNext(s, s', step) && step.CommitInsertStep?
    ensures s.admissions[step.tx].req.id !in s.rows && ValidContent(s.admissions[step.tx].req.content)
  {
    InsertedTxOk(s, m, step.tx);
    assert TxOk(step.tx, s.admissions[step.tx], s.rows, m, s.served);
  }

  lemma LeaseInvNext(s: State, s': State, step: Step)
    requires LeaseInv(s) && NextStep(s, s', step)
    requires step.Admitting? && step.admit.CommitInsertStep? ==>
               s.admissions[step.admit.tx].req.id !in s.rows && ValidContent(s.admissions[step.admit.tx].req.content)
    ensures LeaseInv(s')
  {
    match step
    case Admitting(admit) => AdmitStepsKeep(s, s', admit);
    case Claiming(claim) => ClaimStepsKeep(s, s', claim);
    case Tasking(task) => TaskStepsKeep(s, s', task);
  }

  lemma InvNext(s: State, s': State, step: Step)
    requires Inv(s) && NextStep(s, s', step)
    ensures Inv(s')
  {
    if step.Admitting? && step.admit.CommitInsertStep? {
      CommitIsFresh(s, s', Replay(s.served), step.admit);
    }
    AdmitInvNext(s, s', step);
    ContentInvNext(s, s', Replay(s.served), step);
    LeaseInvNext(s, s', step);
    DoneInvNext(s, s', step);
    CountInvNext(s, s', step);
  }

  /** Every state of every run satisfies the invariant. */
  lemma {:induction false} InvOnRun(states: seq<State>, i: nat)
    requires Run(states) && i < |states|
    ensures Inv(states[i])
  {
    if i == 0 {
      InvInit();
    } else {
      InvOnRun(states, i - 1);
      assert Next(states[i - 1], states[i - 1 + 1]);
      var step :| NextStep(states[i - 1], states[i], step);
      InvNext(states[i - 1], states[i], step);
    }
  }

  // ---------------------------------------------------------------- what only grows

  /** Later tables keep every row's content, and processed rows whole. */
  ghost predicate RowsGrow(rows: Table, rows': Table) {
    forall id | id in rows ::
      && id in rows'
      && rows'[id].content == rows[id].content
      && (rows[id].life.status == Processed ==> rows'[id] == rows[id])
  }

  ghost predicate LeasesGrow(leases: map<EventId, seq<Lease>>, leases': map<EventId, seq<Lease>>) {
    forall id | id in leases :: id in leases' && leases[id] <= leases'[id]
  }

  ghost predicate CompletersGrow(completer: map<EventId, TaskId>, completer': map<EventId, TaskId>) {
    forall id | id in completer :: id in completer' && completer'[id] == completer[id]
  }

  /** A task keeps its worker and event; a closed admission keeps its reply. */
  ghost predicate TasksGrow(tasks: map<TaskId, Task>, tasks': map<TaskId, Task>) {
    forall t | t in tasks :: t in tasks' && tasks'[t].owner == tasks[t].owner && tasks'[t].event == tasks[t].event
  }

  ghost predicate RepliesKept(txs: Admissions, txs': Admissions) {
    forall tx | tx in txs && txs[tx].phase.Closed? :: tx in txs' && txs'[tx] == txs[tx]
  }

  ghost predicate Grows(s: State, s': State) {
    && RowsGrow(s.rows, s'.rows)
    && LeasesGrow(s.leases, s'.leases)
    && CompletersGrow(s.completer, s'.completer)
    && TasksGrow(s.tasks, s'.tasks)
    && RepliesKept(s.admissions, s'.admissions)
    && RequestsKept(s.admissions, s'.admissions)
    && s.served <= s'.served
  }

  lemma GrowsTransitive(a: State, b: State, c: State)
    requires Grows(a, b) && Grows(b, c)
    ensures Grows(a, c)
  {
    forall id | id in a.leases ensures id in c.leases && a.leases[id] <= c.leases[id] {
      assert a.leases[id] <= b.leases[id] <= c.leases[id];
    }
  }

  lemma QuietAdmitGrows(s: State, s': State, step: AdmitStep)
    requires AdmitNext(s, s', step) && !step.CommitInsertStep? && !step.CommitLookupStep?
    ensures RepliesKept(s.admissions, s'.admissions)
  {
  }

  lemma CommitInsertGrows(s: State, s': State, tx: TxId, delivered: bool)
    requires CommitInsert(s, s', tx, delivered) && s.admissions[tx].req.id !in s.rows
    requires s.admissions[tx].req.id !in s.leases
    ensures Grows(s, s')
  {
  }

  lemma CommitLookupGrows(s: State, s': State, tx: TxId, delivered: bool)
    requires CommitLookup(s, s', tx, delivered)
    ensures Grows(s, s')
  {
  }

  lemma AdmitGrows(s: State, s': State, step: AdmitStep)
    requires AdmitNext(s, s', step)
    requires step.CommitInsertStep? ==>
               s.admissions[step.tx].req.id !in s.rows && s.admissions[step.tx].req.id !in s.leases
    ensures Grows(s, s')
  {
    if step.CommitInsertStep? {
      CommitInsertGrows(s, s', step.tx, step.delivered);
    } else if step.CommitLookupStep? {
      CommitLookupGrows(s, s', step.tx, step.delivered);
    } else {
      QuietAdmit(s, s', step);
      QuietAdmitGrows(s, s', step);
      AdmitStepsKeepRequests(s, s', step);
    }
  }

  lemma CommitClaimGrows(s: State, s': State, st: StmtId, delivered: bool)
    requires ClaimsOk(s.claims, s.rows) && CommitClaim(s, s', st, delivered)
    ensures Grows(s, s')
  {
    assert ClaimOk(s.claims[st], s.rows);
  }

  lemma QuietClaimGrows(s: State, s': State, step: ClaimStep)
    requires ClaimNext(s, s', step) && !step.CommitClaimStep?
    ensures Grows(s, s')
  {
  }

  lemma CommitCompleteGrows(s: State, s': State, t: TaskId)
    requires CommitComplete(s, s', t)
    requires s.rows[s.tasks[t].event].life.status == Processing && s.tasks[t].event !in s.completer
    ensures Grows(s, s')
  {
  }

  lemma QuietTaskGrows(s: State, s': State, step: TaskStep)
    requires TaskNext(s, s', step) && !step.CommitCompleteStep?
    ensures Grows(s, s')
  {
  }

  lemma GrowsNext(s: State, s': State, step: Step)
    requires Inv(s) && NextStep(s, s', step)
    ensures Grows(s, s')
  {
    match step
    case Admitting(admit) =>
      if admit.CommitInsertStep? {
        CommitIsFresh(s, s', Replay(s.served), admit);
      }
      AdmitGrows(s, s', admit);
    case Claiming(claim) =>
      if claim.CommitClaimStep? {
        CommitClaimGrows(s, s', claim.st, claim.delivered);
      } else {
        QuietClaimGrows(s, s', claim);
      }
    case Tasking(task) =>
      if task.CommitCompleteStep? {
        CompletesFirst(s, task.t);
        CommitCompleteGrows(s, s', task.t);
      } else {
        QuietTaskGrows(s, s', task);
      }
  }

  ghost predicate GrowsAt(states: seq<State>, k: nat) {
    k + 1 < |states| && Grows(states[k], states[k + 1])
  }

  lemma GrowsAtStep(states: seq<State>, k: nat)
    requires Run(states) && k + 1 < |states|
    ensures GrowsAt(states, k)
  {
    InvOnRun(states, k);
    assert Next(states[k], states[k + 1]);
    var step :| NextStep(states[k], states[k + 1], step);
    GrowsNext(states[k], states[k + 1], step);
  }

  lemma {:induction false} GrowsAlong(states: seq<State>, i: nat, j: nat)
    requires i <= j < |states| && forall k | i <= k < j :: GrowsAt(states, k)
    ensures Grows(states[i], states[j])
  {
    if i < j {
      GrowsAlong(states, i, j - 1);
      assert GrowsAt(states, j - 1);
      GrowsTransitive(states[i], states[j - 1], states[j]);
    }
  }

  /** Nothing listed in `Grows` is ever taken back. */
  lemma GrowsOnRun(states: seq<State>, i: nat, j: nat)
    requires Run(states) && i <= j < |states|
    ensures Grows(states[i], states[j])
  {
    forall k | i <= k < j ensures GrowsAt(states, k) {
      GrowsAtStep(states, k);
    }
    GrowsAlong(states, i, j);
  }

  // ---------------------------------------------------------------- one part at a time

  lemma AdmitInvOnRun(states: seq<State>, i: nat)
    requires Run(states) && i < |states|
    ensures AdmitInv(states[i]) && ContentInv(states[i])
  {
    InvOnRun(states, i);
  }

  lemma LeaseInvOnRun(states: seq<State>, i: nat)
    requires Run(states) && i < |states|
    ensures LeaseInv(states[i])
  {
    InvOnRun(states, i);
  }

  lemma DoneInvOnRun(states: seq<State>, i: nat)
    requires Run(states) && i < |states|
    ensures DoneInv(states[i])
  {
    InvOnRun(states, i);
  }

  lemma CountInvOnRun(states: seq<State>, i: nat)
    requires Run(states) && i < |states|
    ensures CountInv(states[i])
  {
    InvOnRun(states, i);
  }

  lemma RowOkOnRun(states: seq<State>, i: nat, id: EventId)
    requires Run(states) && i < |states| && (id in states[i].rows || id in states[i].leases)
    ensures id in states[i].rows && id in states[i].leases && RowOk(states[i].rows[id], states[i].leases[id])
  {
    LeaseInvOnRun(states, i);
  }

  lemma ClaimOkOnRun(states: seq<State>, i: nat, st: StmtId)
    requires Run(states) && i < |states| && st in states[i].claims
    ensures ClaimOk(states[i].claims[st], states[i].rows)
  {
    LeaseInvOnRun(states, i);
  }

  lemma TaskOkOnRun(states: seq<State>, i: nat, t: TaskId)
    requires Run(states) && i < |states| && t in states[i].tasks
    ensures TaskOk(states[i].tasks[t], states[i].rows)
  {
    LeaseInvOnRun(states, i);
  }

  lemma LeasesGrowOnRun(states: seq<State>, i: nat, j: nat, id: EventId)
    requires Run(states) && i <= j < |states| && id in states[i].leases
    ensures id in states[j].leases && states[i].leases[id] <= states[j].leases[id]
  {
    GrowsOnRun(states, i, j);
  }

  lemma RowsGrowOnRun(states: seq<State>, i: nat, j: nat, id: EventId)
    requires Run(states) && i <= j < |states| && id in states[i].rows
    ensures id in states[j].rows && states[j].rows[id].content == states[i].rows[id].content
    ensures states[i].rows[id].life.status == Processed ==> states[j].rows[id] == states[i].rows[id]
  {
    GrowsOnRun(states, i, j);
  }

  /** The step that a run takes, with what invariants make of it. */
  lemma StepOnRun(states: seq<State>, k: nat) returns (step: Step)
    requires Run(states) && k + 1 < |states|
    ensures NextStep(states[k], states[k + 1], step) && LeaseInv(states[k])
    ensures step.Admitting? && step.admit.CommitInsertStep? ==>
              states[k].admissions[step.admit.tx].req.id !in states[k].rows
  {
    assert Next(states[k], states[k + 1]);
    step :| NextStep(states[k], states[k + 1], step);
    LeaseInvOnRun(states, k);
    AdmitInvOnRun(states, k);
    if step.Admitting? && step.admit.CommitInsertStep? {
      CommitIsFresh(states[k], states[k + 1], Replay(states[k].served), step.admit);
    }
  }
}
