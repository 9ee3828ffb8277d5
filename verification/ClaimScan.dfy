/**
 What a claim statement takes while admissions, other claims and completions go on around it:
 of the rows claimable in its snapshot, oldest first, each one that is free and still claimable
 when the scan reaches it, until the limit.
 */
module ClaimScan {
  import opened Schema
  import opened Protocol
  import opened LeaseProofs
  import opened Runs
  import opened StoreModel

  // ---------------------------------------------------------------- scans within runs

  /** Between states `i` and `j` of a run, claim `st` begins and scans on. */
  ghost predicate Scans(
    states: seq<State>, i: nat, j: nat, st: StmtId, owner: WorkerId, limit: nat, leaseMs: int, now: int,
    queue: seq<EventId>)
  {
    && Run(states) && i < j < |states|
    && BeginClaim(states[i], states[i + 1], st, owner, limit, leaseMs, now, queue)
    && (forall k | i < k <= j :: IsScanning(states[k], st))
  }

  /** The step from state `k` is the scan's visit of `id`. */
  ghost predicate VisitsAt(states: seq<State>, k: nat, st: StmtId, id: EventId) {
    && k + 1 < |states|
    && Visit(states[k], states[k + 1], st)
    && states[k].claims[st].queue[0] == id
  }

  ghost predicate FreeAt(s: State, st: StmtId, id: EventId, now: int) {
    !LockedAgainstClaim(s, st, id) && id in s.rows && Claimable(s.rows[id], now)
  }

  /** The scan reached `id` and found it free and claimable. */
  ghost predicate TakenBetween(states: seq<State>, i: nat, j: nat, st: StmtId, id: EventId, now: int) {
    exists k | i < k < j && k < |states| :: VisitsAt(states, k, st, id) && FreeAt(states[k], st, id, now)
  }

  /** The scan reached `id` and found it locked by another statement, or no longer claimable. */
  ghost predicate PassedBetween(states: seq<State>, i: nat, j: nat, st: StmtId, id: EventId, now: int) {
    exists k | i < k < j && k < |states| :: VisitsAt(states, k, st, id) && !FreeAt(states[k], st, id, now)
  }

  // ---------------------------------------------------------------- what other steps leave alone

  lemma ClaimStepSpares(s: State, s': State, step: ClaimStep, st: StmtId)
    requires ClaimNext(s, s', step) && IsScanning(s, st) && IsScanning(s', st)
    ensures s'.claims[st] == s.claims[st] || Visit(s, s', st)
  {
  }

  lemma AdmitStepSpares(s: State, s': State, step: AdmitStep)
    requires AdmitNext(s, s', step)
    ensures s'.claims == s.claims
  {
    if !step.CommitInsertStep? {
      QuietAdmitKeeps(s, s', step);
    }
  }

  lemma TaskStepSpares(s: State, s': State, step: TaskStep)
    requires TaskNext(s, s', step)
    ensures s'.claims == s.claims
  {
    if !step.CommitCompleteStep? {
      QuietTaskKeeps(s, s', step);
    }
  }

  /** While a claim scans, only its own visits change it. */
  lemma ScanSpared(s: State, s': State, step: Step, st: StmtId)
    requires NextStep(s, s', step) && IsScanning(s, st) && IsScanning(s', st)
    ensures s'.claims[st] == s.claims[st] || Visit(s, s', st)
  {
    match step
    case Admitting(admit) => AdmitStepSpares(s, s', admit);
    case Claiming(claim) => ClaimStepSpares(s, s', claim, st);
    case Tasking(task) => TaskStepSpares(s, s', task);
  }

  lemma ClaimStepKeepsRow(s: State, s': State, step: ClaimStep, st: StmtId, id: EventId)
    requires ClaimNext(s, s', step) && ClaimsOk(s.claims, s.rows) && IsScanning(s', st)
    requires id in s.rows && !LockedAgainstClaim(s, st, id)
    ensures id in s'.rows && s'.rows[id] == s.rows[id]
  {
    if step.CommitClaimStep? {
      var c := s.claims[step.st];
      assert ClaimOk(c, s.rows);
      assert id in c.chosen ==> ScanLocks(s, step.st, id);
    } else {
      QuietClaimKeeps(s, s', step);
    }
  }

  lemma TaskStepKeepsRow(s: State, s': State, step: TaskStep, st: StmtId, id: EventId)
    requires TaskNext(s, s', step) && id in s.rows && !LockedAgainstClaim(s, st, id)
    ensures id in s'.rows && s'.rows[id] == s.rows[id]
  {
    if step.CommitCompleteStep? {
      assert s.tasks[step.t].event == id ==> HoldLocks(s, step.t, id);
    } else {
      QuietTaskKeeps(s, s', step);
    }
  }

  lemma AdmitStepKeepsRow(s: State, s': State, step: AdmitStep, id: EventId)
    requires AdmitNext(s, s', step) && id in s.rows
    requires step.CommitInsertStep? ==> s.admissions[step.tx].req.id !in s.rows
    ensures id in s'.rows && s'.rows[id] == s.rows[id]
  {
    if !step.CommitInsertStep? {
      QuietAdmitKeeps(s, s', step);
    }
  }

  ghost predicate SameRow(states: seq<State>, k: nat, id: EventId) {
    && k + 1 < |states|
    && (id in states[k].rows ==> id in states[k + 1].rows && states[k + 1].rows[id] == states[k].rows[id])
  }

  /** A row that no other statement has locked does not change while the claim scans. */
  lemma FreeRowKept(states: seq<State>, k: nat, st: StmtId, id: EventId)
    requires Run(states) && k + 1 < |states| && IsScanning(states[k + 1], st)
    requires !LockedAgainstClaim(states[k], st, id)
    ensures SameRow(states, k, id)
  {
    if id in states[k].rows {
      var step := StepOnRun(states, k);
      match step
      case Admitting(admit) => AdmitStepKeepsRow(states[k], states[k + 1], admit, id);
      case Claiming(claim) => ClaimStepKeepsRow(states[k], states[k + 1], claim, st, id);
      case Tasking(task) => TaskStepKeepsRow(states[k], states[k + 1], task, st, id);
    }
  }

  lemma {:induction false} RowStable(states: seq<State>, i: nat, k: nat, id: EventId)
    requires i <= k < |states| && id in states[i].rows
    requires forall m | i <= m < k :: SameRow(states, m, id)
    ensures id in states[k].rows && states[k].rows[id] == states[i].rows[id]
  {
    if k > i {
      RowStable(states, i, k - 1, id);
      assert SameRow(states, k - 1, id);
    }
  }

  // ---------------------------------------------------------------- the scan so far

  /** After `n` visits: who was chosen, in which order, and why the others were passed over. */
  ghost predicate Midway(
    states: seq<State>, i: nat, k: nat, st: StmtId, limit: nat, now: int, queue: seq<EventId>, n: nat)
  {
    && i < k < |states| && n <= |queue| && IsScanning(states[k], st)
    && var c := states[k].claims[st];
       && c.limit == limit && c.now == now && c.queue == queue[n..] && |c.chosen| <= limit
       && IsScanning(states[i + 1], st)
       && c.owner == states[i + 1].claims[st].owner && c.leaseMs == states[i + 1].claims[st].leaseMs
       && OldestFirst(states[i].rows, c.chosen)
       && (forall id | id in c.chosen :: id in queue[..n] && TakenBetween(states, i, k, st, id, now))
       && (forall id | id in queue[..n] && id !in c.chosen :: PassedBetween(states, i, k, st, id, now))
  }

  lemma BetweenGrows(states: seq<State>, i: nat, k: nat, st: StmtId, id: EventId, now: int)
    ensures TakenBetween(states, i, k, st, id, now) ==> TakenBetween(states, i, k + 1, st, id, now)
    ensures PassedBetween(states, i, k, st, id, now) ==> PassedBetween(states, i, k + 1, st, id, now)
  {
  }

  lemma MidwayStays(states: seq<State>, i: nat, k: nat, st: StmtId, limit: nat, now: int, queue: seq<EventId>, n: nat)
    requires Midway(states, i, k, st, limit, now, queue, n) && k + 1 < |states|
    requires IsScanning(states[k + 1], st) && states[k + 1].claims[st] == states[k].claims[st]
    ensures Midway(states, i, k + 1, st, limit, now, queue, n)
  {
    forall id ensures TakenBetween(states, i, k, st, id, now) ==> TakenBetween(states, i, k + 1, st, id, now)
              ensures PassedBetween(states, i, k, st, id, now) ==> PassedBetween(states, i, k + 1, st, id, now)
    {
      BetweenGrows(states, i, k, st, id, now);
    }
  }

  lemma YoungestLast(rows: Table, queue: seq<EventId>, n: nat, chosen: seq<EventId>)
    requires OldestFirst(rows, queue) && n < |queue| && OldestFirst(rows, chosen)
    requires forall id | id in chosen :: id in queue[..n]
    ensures OldestFirst(rows, chosen + [queue[n]])
    ensures forall id | id in queue[..n] :: id != queue[n] && Older(rows, id, queue[n])
  {
    forall id | id in queue[..n] ensures id != queue[n] && Older(rows, id, queue[n]) {
      var p :| 0 <= p < n && queue[p] == id;
      assert Older(rows, queue[p], queue[n]);
    }
    forall a | 0 <= a < |chosen| ensures Older(rows, chosen[a], queue[n]) {
      assert chosen[a] in chosen;
    }
  }

  lemma MidwayVisits(states: seq<State>, i: nat, k: nat, st: StmtId, limit: nat, now: int, queue: seq<EventId>, n: nat)
    requires Midway(states, i, k, st, limit, now, queue, n) && k + 1 < |states|
    requires Visit(states[k], states[k + 1], st) && OldestFirst(states[i].rows, queue)
    ensures Midway(states, i, k + 1, st, limit, now, queue, n + 1)
  {
    var c, id := states[k].claims[st], queue[n];
    assert c.queue[0] == id && c.queue[1..] == queue[n + 1..];
    assert queue[..n + 1] == queue[..n] + [id];
    assert VisitsAt(states, k, st, id);
    YoungestLast(states[i].rows, queue, n, c.chosen);
    forall x ensures TakenBetween(states, i, k, st, x, now) ==> TakenBetween(states, i, k + 1, st, x, now)
             ensures PassedBetween(states, i, k, st, x, now) ==> PassedBetween(states, i, k + 1, st, x, now)
    {
      BetweenGrows(states, i, k, st, x, now);
    }
    if FreeAt(states[k], st, id, now) {
      assert TakenBetween(states, i, k + 1, st, id, now);
    } else {
      assert PassedBetween(states, i, k + 1, st, id, now);
    }
  }

  /** The step from state `k` is a visit, or leaves the claim as it is. */
  ghost predicate ScansOn(states: seq<State>, k: nat, st: StmtId) {
    && k + 1 < |states| && IsScanning(states[k], st) && IsScanning(states[k + 1], st)
    && (states[k + 1].claims[st] == states[k].claims[st] || Visit(states[k], states[k + 1], st))
  }

  lemma ScansOnRun(states: seq<State>, k: nat, st: StmtId)
    requires Run(states) && k + 1 < |states| && IsScanning(states[k], st) && IsScanning(states[k + 1], st)
    ensures ScansOn(states, k, st)
  {
    var step := StepOnRun(states, k);
    ScanSpared(states[k], states[k + 1], step, st);
  }

  lemma {:induction false} ScanSoFar(
    states: seq<State>, i: nat, k: nat, st: StmtId, limit: nat, now: int, queue: seq<EventId>)
    returns (n: nat)
    requires i < k < |states| && OldestFirst(states[i].rows, queue)
    requires Midway(states, i, i + 1, st, limit, now, queue, 0)
    requires forall m | i < m < k :: ScansOn(states, m, st)
    ensures Midway(states, i, k, st, limit, now, queue, n)
  {
    n := 0;
    if k > i + 1 {
      n := ScanSoFar(states, i, k - 1, st, limit, now, queue);
      assert ScansOn(states, k - 1, st);
      if states[k].claims[st] == states[k - 1].claims[st] {
        MidwayStays(states, i, k - 1, st, limit, now, queue, n);
      } else {
        MidwayVisits(states, i, k - 1, st, limit, now, queue, n);
        n := n + 1;
      }
    }
  }

  lemma ScanStarts(
    states: seq<State>, i: nat, j: nat, st: StmtId, owner: WorkerId, limit: nat, leaseMs: int, now: int,
    queue: seq<EventId>)
    requires Scans(states, i, j, st, owner, limit, leaseMs, now, queue)
    ensures OldestFirst(states[i].rows, queue) && states[i + 1].rows == states[i].rows
    ensures Midway(states, i, i + 1, st, limit, now, queue, 0)
  {
    assert queue[0..] == queue;
  }

  // ---------------------------------------------------------------- what it takes

  lemma UnvisitedAreYounger(rows: Table, queue: seq<EventId>, n: nat, id: EventId)
    requires OldestFirst(rows, queue) && n <= |queue| && id in queue && id !in queue[..n]
    ensures n < |queue|
    ensures forall b | b in queue[..n] :: Older(rows, b, id)
  {
    assert forall q | 0 <= q < n :: queue[..n][q] == queue[q];
    var p :| 0 <= p < |queue| && queue[p] == id;
    assert n <= p;
    forall b | b in queue[..n] ensures Older(rows, b, id) {
      var q :| 0 <= q < n && queue[q] == b;
      assert Older(rows, queue[q], queue[p]);
    }
  }

  /**
   Whatever else runs meanwhile, a claim takes, oldest first and up to its limit, exactly those
   candidates of its snapshot that it finds free and claimable when it reaches them.  A candidate
   it does not take was locked or no longer claimable at that moment, or is younger than `limit`
   rows that it took.
   */
  lemma ScanTakesOldestFree(
    states: seq<State>, i: nat, j: nat, st: StmtId, owner: WorkerId, limit: nat, leaseMs: int, now: int,
    queue: seq<EventId>)
    requires Scans(states, i, j, st, owner, limit, leaseMs, now, queue) && DoneScanning(states[j].claims[st])
    ensures ClaimLease(states[j].claims[st]) == Lease(owner, now, now + leaseMs * 1000)
    ensures var chosen := states[j].claims[st].chosen;
            && OldestFirst(states[i].rows, chosen) && |chosen| <= limit
            && (forall id | id in chosen :: id in queue && TakenBetween(states, i, j, st, id, now))
            && (forall id | id in queue && id !in chosen ::
                  || PassedBetween(states, i, j, st, id, now)
                  || (|chosen| == limit && forall b | b in chosen :: Older(states[i].rows, b, id)))
  {
    ScanStarts(states, i, j, st, owner, limit, leaseMs, now, queue);
    forall m | i < m < j ensures ScansOn(states, m, st) {
      ScansOnRun(states, m, st);
    }
    var n := ScanSoFar(states, i, j, st, limit, now, queue);
    var chosen := states[j].claims[st].chosen;
    forall id | id in queue && id !in chosen && !PassedBetween(states, i, j, st, id, now)
      ensures |chosen| == limit && forall b | b in chosen :: Older(states[i].rows, b, id)
    {
      assert id !in queue[..n];
      UnvisitedAreYounger(states[i].rows, queue, n, id);
    }
  }

  /** What nobody else locks during the scan is not passed over. */
  lemma FreeIsNotPassed(
    states: seq<State>, i: nat, j: nat, st: StmtId, owner: WorkerId, limit: nat, leaseMs: int, now: int,
    queue: seq<EventId>, id: EventId)
    requires Scans(states, i, j, st, owner, limit, leaseMs, now, queue)
    requires id in states[i].rows && Claimable(states[i].rows[id], now)
    requires forall m | i < m < j :: !LockedAgainstClaim(states[m], st, id)
    ensures !PassedBetween(states, i, j, st, id, now)
  {
    ScanStarts(states, i, j, st, owner, limit, leaseMs, now, queue);
    forall m | i < m < j ensures SameRow(states, m, id) {
      assert IsScanning(states[m + 1], st);
      FreeRowKept(states, m, st, id);
    }
    forall k | i < k < j && k < |states| ensures FreeAt(states[k], st, id, now) {
      RowStable(states, i + 1, k, id);
    }
  }

  /**
   If no other statement locks a candidate while the claim scans, then whatever else runs, the
   batch is exactly the oldest min(limit, claimable) rows of its snapshot.
   */
  lemma UncontendedScanIsExact(
    states: seq<State>, i: nat, j: nat, st: StmtId, owner: WorkerId, limit: nat, leaseMs: int, now: int,
    queue: seq<EventId>)
    requires Scans(states, i, j, st, owner, limit, leaseMs, now, queue) && DoneScanning(states[j].claims[st])
    requires forall k, id | i < k < j && id in queue :: !LockedAgainstClaim(states[k], st, id)
    ensures TakesOldest(states[i].rows, now, limit, states[j].claims[st].chosen)
    ensures states[j].claims[st].chosen == queue[..if limit < |queue| then limit else |queue|]
  {
    ScanTakesOldestFree(states, i, j, st, owner, limit, leaseMs, now, queue);
    forall id | id in queue ensures !PassedBetween(states, i, j, st, id, now) {
      FreeIsNotPassed(states, i, j, st, owner, limit, leaseMs, now, queue, id);
    }
    OldestIsPrefix(states[i].rows, now, limit, states[j].claims[st].chosen, queue);
  }

  lemma {:induction false} FewerThanRows(rows: Table, ids: seq<EventId>, id: EventId)
    requires OldestFirst(rows, ids) && id in rows && id !in ids
    ensures |ids| < |rows|
    decreases |ids|
  {
    if ids != [] {
      var last, init := ids[|ids| - 1], ids[..|ids| - 1];
      assert last in ids;
      var rest := rows - {last};
      assert rest.Keys == rows.Keys - {last};
      assert |rest.Keys| == |rest| && |rows.Keys| == |rows|;
      forall k | 0 <= k < |init| ensures init[k] in rest {
        assert Older(rows, ids[k], last);
      }
      FewerThanRows(rest, init, id);
    }
  }

  /**
   Recovery: a claim large enough for the table takes every claimable row that no other statement
   locks during the scan, whoever owned it before and whatever happens to other rows.
   */
  lemma LargeClaimRecovers(
    states: seq<State>, i: nat, j: nat, st: StmtId, owner: WorkerId, limit: nat, leaseMs: int, now: int,
    queue: seq<EventId>, id: EventId)
    requires Scans(states, i, j, st, owner, limit, leaseMs, now, queue) && DoneScanning(states[j].claims[st])
    requires limit >= |states[i].rows| && id in states[i].rows && Claimable(states[i].rows[id], now)
    requires forall k | i < k < j :: !LockedAgainstClaim(states[k], st, id)
    ensures id in states[j].claims[st].chosen
    ensures ClaimLease(states[j].claims[st]) == Lease(owner, now, now + leaseMs * 1000)
  {
    ScanTakesOldestFree(states, i, j, st, owner, limit, leaseMs, now, queue);
    FreeIsNotPassed(states, i, j, st, owner, limit, leaseMs, now, queue, id);
    if id !in states[j].claims[st].chosen {
      FewerThanRows(states[i].rows, states[j].claims[st].chosen, id);
    }
  }
}
