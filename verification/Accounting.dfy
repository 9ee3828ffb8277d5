/**
 Conservation: what the attempt counters, the statuses and the committed statements add
 up to over every run.
 */
module AccountingProofs {
  import opened EventModel
  import opened Schema
  import opened Ledger
  import opened Protocol
  import opened LeaseProofs
  import opened CompletionProofs

  // ---------------------------------------------------------------- sums over a table

  ghost function Sum(m: map<EventId, int>): int
    decreases |m|
  {
    if m == map[] then 0
    else
      var id :| id in m;
      RemoveShrinks(m, id);
      m[id] + Sum(m - {id})
  }

  lemma RemoveShrinks(m: map<EventId, int>, id: EventId)
    requires id in m
    ensures |m - {id}| == |m| - 1
  {
    assert (m - {id}).Keys == m.Keys - {id};
    assert |m.Keys| == |m| && |(m - {id}).Keys| == |m - {id}|;
  }

  /** A sum does not depend on the order of summation. */
  lemma {:induction false} SumSplit(m: map<EventId, int>, id: EventId)
    requires id in m
    ensures Sum(m) == m[id] + Sum(m - {id})
    decreases |m|
  {
    var k :| k in m && Sum(m) == m[k] + Sum(m - {k});
    if k != id {
      RemoveShrinks(m, k);
      RemoveShrinks(m, id);
      SumSplit(m - {k}, id);
      SumSplit(m - {id}, k);
      assert m - {k} - {id} == m - {id} - {k};
    }
  }

  lemma SumUpdate(m: map<EventId, int>, id: EventId, v: int)
    ensures Sum(m[id := v]) == Sum(m) + v - (if id in m then m[id] else 0)
  {
    SumSplit(m[id := v], id);
    if id in m {
      SumSplit(m, id);
      assert m[id := v] - {id} == m - {id};
    } else {
      assert m[id := v] - {id} == m;
    }
  }

  /** Adding one to the entries of `ids` adds their number. */
  lemma {:induction false} SumShift(m: map<EventId, int>, m': map<EventId, int>, ids: set<EventId>)
    requires ids <= m.Keys && m'.Keys == m.Keys
    requires forall id | id in m :: m'[id] == m[id] + (if id in ids then 1 else 0)
    ensures Sum(m') == Sum(m) + |ids|
    decreases |ids|
  {
    if ids == {} {
      assert m' == m;
    } else {
      var id :| id in ids;
      SumShift(m, m'[id := m[id]], ids - {id});
      SumUpdate(m', id, m[id]);
    }
  }

  // ---------------------------------------------------------------- what is counted

  ghost function Attempts(rows: Table): map<EventId, int> {
    map id | id in rows :: rows[id].life.attempts
  }

  /** Row transitions still to come, short of reclaims: 2, 1 and 0. */
  function Weight(status: EventStatus): int {
    match status
    case Pending => 2
    case Processing => 1
    case Processed => 0
  }

  ghost function Weights(rows: Table): map<EventId, int> {
    map id | id in rows :: Weight(rows[id].life.status)
  }

  /** First claims and completions each used up one unit of weight. */
  ghost predicate CountInv(s: State) {
    && Sum(Attempts(s.rows)) == s.moved
    && s.reclaimed <= s.moved
    && Sum(Weights(s.rows)) + (s.moved - s.reclaimed) + |s.completer| == 2 * |s.rows|
  }

  lemma CountInvInit()
    ensures CountInv(INIT)
  {
    assert Attempts(INIT.rows) == map[] && Weights(INIT.rows) == map[];
  }

  lemma SameKeysSameSize(a: Table, b: Table)
    requires a.Keys == b.Keys
    ensures |a| == |b|
  {
    assert |a.Keys| == |a| && |b.Keys| == |b|;
  }

  lemma InsertAttempts(rows: Table, id: EventId, row: Row)
    requires id !in rows && row.life == NEW_LIFE
    ensures Sum(Attempts(rows[id := row])) == Sum(Attempts(rows))
  {
    SumUpdate(Attempts(rows), id, 0);
    assert Attempts(rows[id := row]) == Attempts(rows)[id := 0];
  }

  lemma InsertWeight(rows: Table, id: EventId, row: Row)
    requires id !in rows && row.life == NEW_LIFE
    ensures Sum(Weights(rows[id := row])) == Sum(Weights(rows)) + 2
  {
    SumUpdate(Weights(rows), id, 2);
    assert Weights(rows[id := row]) == Weights(rows)[id := 2];
  }

  lemma CompleteAttempts(rows: Table, id: EventId, now: int)
    requires id in rows
    ensures Sum(Attempts(rows[id := Completed(rows[id], now)])) == Sum(Attempts(rows))
  {
    assert Attempts(rows[id := Completed(rows[id], now)]) == Attempts(rows);
  }

  lemma CompleteWeight(rows: Table, id: EventId, now: int)
    requires id in rows && rows[id].life.status == Processing
    ensures Sum(Weights(rows[id := Completed(rows[id], now)])) == Sum(Weights(rows)) - 1
  {
    SumUpdate(Weights(rows), id, 0);
    assert Weights(rows[id := Completed(rows[id], now)]) == Weights(rows)[id := 0];
  }

  lemma ClaimAttempts(rows: Table, ids: set<EventId>, owner: WorkerId, now: int, leaseMs: int)
    requires ids <= rows.Keys
    ensures Sum(Attempts(ClaimRows(rows, ids, owner, now, leaseMs))) == Sum(Attempts(rows)) + |ids|
  {
    SumShift(Attempts(rows), Attempts(ClaimRows(rows, ids, owner, now, leaseMs)), ids);
  }

  lemma ClaimWeight(rows: Table, ids: set<EventId>, owner: WorkerId, now: int, leaseMs: int)
    requires ids <= rows.Keys && forall id | id in ids :: Claimable(rows[id], now)
    ensures |Reclaims(rows, ids)| <= |ids|
    ensures Sum(Weights(ClaimRows(rows, ids, owner, now, leaseMs)))
         == Sum(Weights(rows)) - (|ids| - |Reclaims(rows, ids)|)
  {
    var again := Reclaims(rows, ids);
    assert again <= ids;
    assert |ids - again| == |ids| - |again|;
    SumShift(Weights(ClaimRows(rows, ids, owner, now, leaseMs)), Weights(rows), ids - again);
  }

  lemma {:induction false} DistinctCount(ids: seq<EventId>)
    requires NoRepeats(ids)
    ensures |IdSet(ids)| == |ids|
  {
    if ids != [] {
      var rest := ids[..|ids| - 1];
      DistinctCount(rest);
      assert IdSet(ids) == IdSet(rest) + {ids[|ids| - 1]};
    }
  }

  // ---------------------------------------------------------------- every step

  lemma CommitInsertCounts(s: State, s': State, tx: TxId, delivered: bool)
    requires CountInv(s) && CommitInsert(s, s', tx, delivered) && s.admissions[tx].req.id !in s.rows
    ensures CountInv(s')
  {
    var req := s.admissions[tx].req;
    InsertAttempts(s.rows, req.id, Row(req.content, NEW_LIFE));
    InsertWeight(s.rows, req.id, Row(req.content, NEW_LIFE));
  }

  lemma CommitClaimCounts(s: State, s': State, st: StmtId, delivered: bool)
    requires CountInv(s) && ClaimsOk(s.claims, s.rows) && CommitClaim(s, s', st, delivered)
    ensures CountInv(s')
  {
    var c := s.claims[st];
    assert ClaimOk(c, s.rows);
    DistinctCount(c.chosen);
    ClaimAttempts(s.rows, IdSet(c.chosen), c.owner, c.now, c.leaseMs);
    ClaimWeight(s.rows, IdSet(c.chosen), c.owner, c.now, c.leaseMs);
    SameKeysSameSize(s.rows, s'.rows);
  }

  lemma CommitCompleteCounts(s: State, s': State, t: TaskId)
    requires CountInv(s) && CommitComplete(s, s', t)
    requires s.rows[s.tasks[t].event].life.status == Processing && s.tasks[t].event !in s.completer
    ensures CountInv(s')
  {
    var id, now := s.tasks[t].event, s.tasks[t].stage.now;
    CompleteAttempts(s.rows, id, now);
    CompleteWeight(s.rows, id, now);
    SameKeysSameSize(s.rows, s'.rows);
  }

  lemma CompletesFirst(s: State, t: TaskId)
    requires LeaseInv(s) && CompletersOk(s) && IsHolding(s, t)
    ensures s.tasks[t].event in s.rows && s.rows[s.tasks[t].event].life.status == Processing
    ensures s.tasks[t].event !in s.completer
  {
    HolderOwns(s, t);
    if s.tasks[t].event in s.completer {
      RecordedIsProcessed(s, s.tasks[t].event);
    }
  }

  lemma ClaimStepCounts(s: State, s': State, step: ClaimStep)
    requires CountInv(s) && LeaseInv(s) && DoneInv(s) && ClaimNext(s, s', step)
    ensures CountInv(s')
  {
    if step.CommitClaimStep? {
      CommitClaimCounts(s, s', step.st, step.delivered);
    } else {
      QuietClaimKeeps(s, s', step);
    }
  }

  lemma TaskStepCounts(s: State, s': State, step: TaskStep)
    requires CountInv(s) && LeaseInv(s) && DoneInv(s) && TaskNext(s, s', step)
    ensures CountInv(s')
  {
    if step.CommitCompleteStep? {
      CompletesFirst(s, step.t);
      CommitCompleteCounts(s, s', step.t);
    } else {
      QuietTaskKeeps(s, s', step);
    }
  }

  lemma CountInvNext(s: State, s': State, step: Step)
    requires CountInv(s) && LeaseInv(s) && DoneInv(s) && NextStep(s, s', step)
    requires step.Admitting? && step.admit.CommitInsertStep? ==> s.admissions[step.admit.tx].req.id !in s.rows
    ensures CountInv(s')
  {
    match step
    case Admitting(admit) =>
      if admit.CommitInsertStep? {
        CommitInsertCounts(s, s', admit.tx, admit.delivered);
      } else {
        QuietAdmitKeeps(s, s', admit);
      }
    case Claiming(claim) => ClaimStepCounts(s, s', claim);
    case Tasking(task) => TaskStepCounts(s, s', task);
  }
}
