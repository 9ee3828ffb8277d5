/** Counters, completions and row transitions add up, over every run. */
module CompletionTheorems {
  import opened EventModel
  import opened Schema
  import opened Ledger
  import opened Protocol
  import opened AdmissionProofs
  import opened LeaseProofs
  import opened CompletionProofs
  import opened AccountingProofs
  import opened Runs

  // ---------------------------------------------------------------- the workers' counters

  /** The `processed` counter of worker `w`: its tasks that were told their completion committed. */
  ghost function ProcessedCounter(s: State, w: WorkerId): nat {
    |Counted(s, {w})|
  }

  ghost function Counted(s: State, ws: set<WorkerId>): set<TaskId> {
    set t | t in s.tasks && s.tasks[t].owner in ws && s.tasks[t].stage == Ended(CountedProcessed)
  }

  ghost function SumCounters(s: State, ws: set<WorkerId>): nat
    decreases |ws|
  {
    if ws == {} then 0
    else
      var w :| w in ws;
      ProcessedCounter(s, w) + SumCounters(s, ws - {w})
  }

  lemma {:induction false} CountersCountTasks(s: State, ws: set<WorkerId>)
    ensures SumCounters(s, ws) == |Counted(s, ws)|
    decreases |ws|
  {
    if ws == {} {
      assert Counted(s, ws) == {};
    } else {
      var w :| w in ws && SumCounters(s, ws) == ProcessedCounter(s, w) + SumCounters(s, ws - {w});
      assert ProcessedCounter(s, w) == |Counted(s, {w})|;
      CountersCountTasks(s, ws - {w});
      assert SumCounters(s, ws) == |Counted(s, {w})| + |Counted(s, ws - {w})|;
      var one, rest := Counted(s, {w}), Counted(s, ws - {w});
      assert one !! rest;
      UnionSize(one, rest);
      assert Counted(s, ws) == one + rest;
      assert |Counted(s, ws)| == |one| + |rest|;
    }
  }

  lemma UnionSize(a: set<nat>, b: set<nat>)
    requires a !! b
    ensures |a + b| == |a| + |b|
  {
  }

  ghost function ProcessedIds(rows: Table): set<EventId> {
    set id | id in rows && rows[id].life.status == Processed
  }

  /** Completed events whose task has not been told, or never will be. */
  ghost function Unreported(s: State): set<EventId> {
    set id | id in s.completer && s.completer[id] in s.tasks
             && s.tasks[s.completer[id]].stage != Ended(CountedProcessed)
  }

  ghost function Reported(s: State): set<EventId> {
    set id | id in s.completer && s.completer[id] in s.tasks
             && s.tasks[s.completer[id]].stage == Ended(CountedProcessed)
  }

  /** An injective image is no smaller than its source. */
  lemma {:induction false} InjectionGrows(xs: set<nat>, ys: set<nat>, f: map<nat, nat>)
    requires forall x | x in xs :: x in f && f[x] in ys
    requires forall x, y | x in xs && y in xs && f[x] == f[y] :: x == y
    ensures |xs| <= |ys|
    decreases |xs|
  {
    if xs != {} {
      var x :| x in xs;
      InjectionGrows(xs - {x}, ys - {f[x]}, f);
    }
  }

  lemma ProcessedAreRecorded(s: State)
    requires DoneInv(s)
    ensures ProcessedIds(s.rows) == s.completer.Keys
  {
    forall id | id in s.completer ensures id in ProcessedIds(s.rows) {
      RecordedIsProcessed(s, id);
    }
    forall id | id in ProcessedIds(s.rows) ensures id in s.completer {
      assert IsProcessed(s.rows, id);
    }
  }

  lemma CountedToReported(s: State, ws: set<WorkerId>)
    requires WinnersRecorded(s.tasks, s.completer)
    ensures |Counted(s, ws)| <= |Reported(s)|
  {
    var f := map t | t in s.tasks :: s.tasks[t].event;
    InjectionGrows(Counted(s, ws), Reported(s), f);
  }

  lemma ReportedToCounted(s: State, ws: set<WorkerId>)
    requires CompletersOk(s)
    requires forall t | t in s.tasks :: s.tasks[t].owner in ws
    ensures |Reported(s)| <= |Counted(s, ws)|
  {
    forall id | id in s.completer ensures s.tasks[s.completer[id]].event == id {
      assert CompletedBy(s.rows, s.leases, id, s.tasks, s.completer[id]);
    }
    InjectionGrows(Reported(s), Counted(s, ws), s.completer);
  }

  lemma CompletersSplit(s: State)
    requires CompletersOk(s)
    ensures |s.completer.Keys| == |Reported(s)| + |Unreported(s)|
  {
    forall id | id in s.completer ensures s.completer[id] in s.tasks {
      assert CompletedBy(s.rows, s.leases, id, s.tasks, s.completer[id]);
    }
    assert s.completer.Keys == Reported(s) + Unreported(s);
    UnionSize(Reported(s), Unreported(s));
  }

  /** The workers' `processed` counters together never exceed the number of `PROCESSED` rows. */
  lemma {:induction false} CountersNeverExceedRows(states: seq<State>, n: nat, ws: set<WorkerId>)
    requires Run(states) && n < |states|
    ensures SumCounters(states[n], ws) <= |ProcessedIds(states[n].rows)|
  {
    var s := states[n];
    DoneInvOnRun(states, n);
    CountersCountTasks(s, ws);
    CountedToReported(s, ws);
    CompletersSplit(s);
    ProcessedAreRecorded(s);
  }

  /** They fall short by exactly the completions whose reply is on its way, lost, or has no receiver. */
  lemma {:induction false} CountersConserve(states: seq<State>, n: nat, ws: set<WorkerId>)
    requires Run(states) && n < |states|
    requires forall t | t in states[n].tasks :: states[n].tasks[t].owner in ws
    ensures SumCounters(states[n], ws) + |Unreported(states[n])| == |ProcessedIds(states[n].rows)|
  {
    var s := states[n];
    DoneInvOnRun(states, n);
    CountersCountTasks(s, ws);
    CountedToReported(s, ws);
    ReportedToCounted(s, ws);
    CompletersSplit(s);
    ProcessedAreRecorded(s);
  }

  /** With no completion reply outstanding or lost, the counters match the table. */
  lemma {:induction false} CountersMatchAtRest(states: seq<State>, n: nat, ws: set<WorkerId>)
    requires Run(states) && n < |states|
    requires forall t | t in states[n].tasks :: states[n].tasks[t].owner in ws
    requires forall t | t in states[n].tasks ::
               states[n].tasks[t].stage != Answered(Yes) && states[n].tasks[t].stage != Ended(ReplyLost)
    ensures SumCounters(states[n], ws) == |ProcessedIds(states[n].rows)|
  {
    var s := states[n];
    CountersConserve(states, n, ws);
    DoneInvOnRun(states, n);
    assert Unreported(s) == {} by {
      forall id | id in s.completer ensures s.tasks[s.completer[id]].stage == Ended(CountedProcessed) {
        assert CompletedBy(s.rows, s.leases, id, s.tasks, s.completer[id]);
      }
    }
  }

  /** Two tasks are never both told that they completed one event. */
  lemma CompletedOnce(states: seq<State>, n: nat, t: TaskId, u: TaskId)
    requires Run(states) && n < |states| && t in states[n].tasks && u in states[n].tasks
    requires states[n].tasks[t].event == states[n].tasks[u].event
    requires HasWon(states[n].tasks[t].stage) && HasWon(states[n].tasks[u].stage)
    ensures t == u
  {
    DoneInvOnRun(states, n);
  }

  // ---------------------------------------------------------------- row transitions

  /** The rows that a step updates. */
  ghost function Updated(s: State, s': State): set<EventId> {
    set id | id in s.rows && id in s'.rows && s'.rows[id] != s.rows[id]
  }

  /** Of these, the rows taken over while `PROCESSING`. */
  ghost function TakenOver(s: State, s': State): set<EventId> {
    set id | id in Updated(s, s') && s.rows[id].life.status == Processing && s'.rows[id].life.status == Processing
  }

  ghost function TotalUpdates(states: seq<State>): nat {
    if |states| < 2 then 0
    else TotalUpdates(states[..|states| - 1]) + |Updated(states[|states| - 2], states[|states| - 1])|
  }

  ghost function TotalTakeOvers(states: seq<State>): nat {
    if |states| < 2 then 0
    else TotalTakeOvers(states[..|states| - 1]) + |TakenOver(states[|states| - 2], states[|states| - 1])|
  }

  ghost predicate CountsStep(s: State, s': State) {
    && s'.moved + |s'.completer| == s.moved + |s.completer| + |Updated(s, s')|
    && s'.reclaimed == s.reclaimed + |TakenOver(s, s')|
  }

  lemma NothingUpdated(s: State, s': State)
    requires s'.moved == s.moved && s'.completer == s.completer && s'.reclaimed == s.reclaimed
    requires forall id | id in s.rows && id in s'.rows :: s'.rows[id] == s.rows[id]
    ensures CountsStep(s, s')
  {
    assert Updated(s, s') == {} && TakenOver(s, s') == {};
  }

  lemma CommitClaimUpdates(s: State, s': State, st: StmtId, delivered: bool)
    requires ClaimsOk(s.claims, s.rows) && CommitClaim(s, s', st, delivered)
    ensures CountsStep(s, s')
  {
    var c := s.claims[st];
    assert ClaimOk(c, s.rows);
    DistinctCount(c.chosen);
    ClaimUpdatesCount(s, s', IdSet(c.chosen), c.owner, c.now, c.leaseMs);
  }

  lemma ClaimUpdatesCount(s: State, s': State, ids: set<EventId>, owner: WorkerId, now: int, leaseMs: int)
    requires s'.rows == ClaimRows(s.rows, ids, owner, now, leaseMs) && ids <= s.rows.Keys
    ensures Updated(s, s') == ids && TakenOver(s, s') == Reclaims(s.rows, ids)
  {
    ClaimUpdates(s.rows, s'.rows, ids, owner, now, leaseMs);
  }

  lemma ClaimUpdates(rows: Table, rows': Table, ids: set<EventId>, owner: WorkerId, now: int, leaseMs: int)
    requires rows' == ClaimRows(rows, ids, owner, now, leaseMs)
    ensures rows'.Keys == rows.Keys
    ensures forall id | id in rows :: rows'[id] != rows[id] <==> id in ids
    ensures forall id | id in ids && id in rows :: rows'[id].life.status == Processing
  {
    forall id | id in rows ensures rows'[id] != rows[id] <==> id in ids {
      if id in ids {
        assert rows'[id].life.attempts == rows[id].life.attempts + 1;
      }
    }
  }

  lemma CommitCompleteUpdates(s: State, s': State, t: TaskId)
    requires CommitComplete(s, s', t)
    requires s.rows[s.tasks[t].event].life.status == Processing && s.tasks[t].event !in s.completer
    ensures CountsStep(s, s')
  {
    assert Updated(s, s') == {s.tasks[t].event};
    assert TakenOver(s, s') == {};
  }

  lemma CommitInsertUpdates(s: State, s': State, tx: TxId, delivered: bool)
    requires CommitInsert(s, s', tx, delivered) && s.admissions[tx].req.id !in s.rows
    ensures CountsStep(s, s')
  {
    NothingUpdated(s, s');
  }

  lemma AdmitUpdates(s: State, s': State, m: Slots, step: AdmitStep)
    requires TxInv(s, m) && AdmitNext(s, s', step)
    ensures CountsStep(s, s')
  {
    if step.CommitInsertStep? {
      CommitIsFresh(s, s', m, step);
      CommitInsertUpdates(s, s', step.tx, step.delivered);
    } else {
      QuietAdmitKeeps(s, s', step);
      NothingUpdated(s, s');
    }
  }

  lemma ClaimStepUpdates(s: State, s': State, step: ClaimStep)
    requires ClaimsOk(s.claims, s.rows) && ClaimNext(s, s', step)
    ensures CountsStep(s, s')
  {
    if step.CommitClaimStep? {
      CommitClaimUpdates(s, s', step.st, step.delivered);
    } else {
      QuietClaimKeeps(s, s', step);
      NothingUpdated(s, s');
    }
  }

  lemma TaskStepUpdates(s: State, s': State, step: TaskStep)
    requires LeaseInv(s) && CompletersOk(s) && TaskNext(s, s', step)
    ensures CountsStep(s, s')
  {
    if step.CommitCompleteStep? {
      CompletesFirst(s, step.t);
      CommitCompleteUpdates(s, s', step.t);
    } else {
      QuietTaskKeeps(s, s', step);
      NothingUpdated(s, s');
    }
  }

  lemma StepUpdates(s: State, s': State, step: Step)
    requires Inv(s) && NextStep(s, s', step)
    ensures CountsStep(s, s')
  {
    match step
    case Admitting(admit) => AdmitUpdates(s, s', Replay(s.served), admit);
    case Claiming(claim) => ClaimStepUpdates(s, s', claim);
    case Tasking(task) => TaskStepUpdates(s, s', task);
  }

  lemma StepOnRunUpdates(states: seq<State>, n: nat)
    requires Run(states) && n + 1 < |states|
    ensures CountsStep(states[n], states[n + 1])
  {
    InvOnRun(states, n);
    assert Next(states[n], states[n + 1]);
    var step :| NextStep(states[n], states[n + 1], step);
    StepUpdates(states[n], states[n + 1], step);
  }

  lemma ShorterRun(states: seq<State>)
    requires Run(states) && |states| > 1
    ensures Run(states[..|states| - 1])
  {
    var init := states[..|states| - 1];
    forall i | 0 <= i < |init| - 1 ensures Next(init[i], init[i + 1]) {
      assert Next(states[i], states[i + 1]);
    }
  }

  lemma {:induction false} HistoryCountsUpdates(states: seq<State>)
    requires Run(states)
    ensures TotalUpdates(states) == states[|states| - 1].moved + |states[|states| - 1].completer|
    ensures TotalTakeOvers(states) == states[|states| - 1].reclaimed
    decreases |states|
  {
    if |states| > 1 {
      ShorterRun(states);
      HistoryCountsUpdates(states[..|states| - 1]);
      StepOnRunUpdates(states, |states| - 2);
    }
  }

  lemma {:induction false} WeightsNotNegative(m: map<EventId, int>)
    requires forall id | id in m :: m[id] >= 0
    ensures Sum(m) >= 0
    decreases |m|
  {
    if m != map[] {
      var id :| id in m && Sum(m) == m[id] + Sum(m - {id});
      RemoveShrinks(m, id);
      WeightsNotNegative(m - {id});
    }
  }

  /** The attempt counters of all events together count the claims of the run that touched a row. */
  lemma {:induction false} AttemptsCountClaims(states: seq<State>)
    requires Run(states)
    ensures var s := states[|states| - 1];
            TotalUpdates(states) == Sum(Attempts(s.rows)) + |ProcessedIds(s.rows)|
  {
    HistoryCountsUpdates(states);
    CountInvOnRun(states, |states| - 1);
    DoneInvOnRun(states, |states| - 1);
    ProcessedAreRecorded(states[|states| - 1]);
  }

  /**
   Progress is bounded: a run over `n` events with `k` take-overs of expired leases updates rows
   `2n + k` times less what is still to be done, so at most `2n + k` times.
   */
  lemma {:induction false} UpdatesAreBounded(states: seq<State>)
    requires Run(states)
    ensures var s := states[|states| - 1];
            && TotalUpdates(states) + Sum(Weights(s.rows)) == 2 * |s.rows| + TotalTakeOvers(states)
            && TotalUpdates(states) <= 2 * |s.rows| + TotalTakeOvers(states)
  {
    HistoryCountsUpdates(states);
    CountInvOnRun(states, |states| - 1);
    WeightsNotNegative(Weights(states[|states| - 1].rows));
  }
}
