/** Leases, fencing and recovery, over every run. */
module LeaseTheorems {
  import opened EventModel
  import opened Schema
  import opened Ledger
  import opened Protocol
  import opened LeaseProofs
  import opened CompletionProofs
  import opened Runs

  // ---------------------------------------------------------------- lease windows

  lemma {:induction false} WindowsApart(h: seq<Lease>, i: nat, j: nat)
    requires Consecutive(h) && i < j < |h|
    ensures h[i].expires <= h[j].started
    ensures h[i].started < h[j].started && h[i].expires < h[j].expires
  {
    assert h[j - 1].expires <= h[j].started;
    assert LongEnough(h[j]) && LongEnough(h[j - 1]);
    if i < j - 1 {
      WindowsApart(h, i, j - 1);
    }
  }

  /**
   The lease windows of one event never overlap, whatever order the clock stamps of the
   claims come in: a later claim starts at or after the end of every earlier one.
   */
  lemma LeaseWindowsDisjoint(states: seq<State>, n: nat, id: EventId, i: nat, j: nat)
    requires Run(states) && n < |states| && id in states[n].leases && i < j < |states[n].leases[id]|
    ensures states[n].leases[id][i].expires <= states[n].leases[id][j].started
    ensures states[n].leases[id][i].started < states[n].leases[id][j].started
    ensures states[n].leases[id][i].expires < states[n].leases[id][j].expires
  {
    RowOkOnRun(states, n, id);
    WindowsApart(states[n].leases[id], i, j);
  }

  lemma {:induction false} SpanOfClaims(h: seq<Lease>, j: nat)
    requires Consecutive(h) && j < |h|
    ensures h[j].started - h[0].started >= j * 1_000_000
    ensures h[j].expires - h[0].started >= (j + 1) * 1_000_000
  {
    assert LongEnough(h[j]);
    if j > 0 {
      SpanOfClaims(h, j - 1);
      assert h[j - 1].expires <= h[j].started;
    }
  }

  /** `n` delivery attempts take at least `n - 1` seconds, for any mix of configured leases. */
  lemma AttemptsTakeTime(states: seq<State>, n: nat, id: EventId)
    requires Run(states) && n < |states| && id in states[n].rows && states[n].rows[id].life.attempts > 0
    ensures id in states[n].leases && |states[n].leases[id]| == states[n].rows[id].life.attempts
    ensures states[n].rows[id].life.startedAt.Some?
    ensures states[n].rows[id].life.startedAt.value - states[n].leases[id][0].started
         >= (states[n].rows[id].life.attempts - 1) * 1_000_000
  {
    RowOkOnRun(states, n, id);
    var h := states[n].leases[id];
    SpanOfClaims(h, |h| - 1);
  }

  /** A lease lasts a second to an hour, so what a worker abandons is claimable an hour after its claim. */
  lemma LeaseEndsWithinTheHour(states: seq<State>, n: nat, id: EventId)
    requires Run(states) && n < |states| && id in states[n].rows && states[n].rows[id].life.status == Processing
    ensures var life := states[n].rows[id].life;
            && life.startedAt.Some? && life.leaseExpiresAt.Some?
            && life.startedAt.value + 1_000_000 <= life.leaseExpiresAt.value <= life.startedAt.value + 3_600_000_000
    ensures Claimable(states[n].rows[id], states[n].rows[id].life.startedAt.value + 3_600_000_000)
  {
    RowOkOnRun(states, n, id);
    var h := states[n].leases[id];
    assert LongEnough(Last(h));
  }

  /** A claim can meet a full attempt counter only 2^31 - 1 seconds after the event's first claim. */
  lemma CounterLasts(states: seq<State>, n: nat, st: StmtId, id: EventId)
    requires Run(states) && n < |states| && IsScanning(states[n], st) && id in states[n].claims[st].chosen
    requires id in states[n].rows && states[n].rows[id].life.attempts >= MAX_ATTEMPTS
    ensures id in states[n].leases && states[n].leases[id] != []
    ensures states[n].claims[st].now - states[n].leases[id][0].started >= 0x7FFF_FFFF * 1_000_000
  {
    RowOkOnRun(states, n, id);
    ClaimOkOnRun(states, n, st);
    var h := states[n].leases[id];
    SpanOfClaims(h, |h| - 1);
  }

  // ---------------------------------------------------------------- schema

  /** No statement of the system is ever rejected by a CHECK, the trigger or the unique constraint. */
  lemma SchemaNeverRejects(states: seq<State>, n: nat, s': State, step: Step)
    requires Run(states) && n < |states| && NextStep(states[n], s', step)
    ensures forall id | id in s'.rows ::
              && FieldChecks(s'.rows[id].content) && LifecycleCheck(s'.rows[id].life)
              && 0 <= s'.rows[id].life.attempts <= 2_147_483_647
    ensures forall id | id in states[n].rows :: id in s'.rows && TriggerAllows(states[n].rows[id], s'.rows[id])
    ensures forall a, b | a in s'.rows && b in s'.rows
                          && s'.rows[a].content.source == s'.rows[b].content.source
                          && s'.rows[a].content.key == s'.rows[b].content.key :: a == b
  {
    InvOnRun(states, n);
    InvNext(states[n], s', step);
    GrowsNext(states[n], s', step);
    forall id | id in s'.rows
      ensures FieldChecks(s'.rows[id].content) && LifecycleCheck(s'.rows[id].life)
      ensures 0 <= s'.rows[id].life.attempts <= 2_147_483_647
    {
      assert RowOk(s'.rows[id], s'.leases[id]);
    }
    forall a, b | a in s'.rows && b in s'.rows
                  && s'.rows[a].content.source == s'.rows[b].content.source
                  && s'.rows[a].content.key == s'.rows[b].content.key
      ensures a == b
    {
      OneRowPerScope(Replay(s'.served), s'.rows, a, b);
    }
  }

  // ---------------------------------------------------------------- concurrent claims

  /** Two claims in flight have no row in common. */
  lemma BatchesApart(states: seq<State>, n: nat, st: StmtId, u: StmtId)
    requires Run(states) && n < |states| && IsScanning(states[n], st) && IsScanning(states[n], u) && st != u
    ensures IdSet(states[n].claims[st].chosen) !! IdSet(states[n].claims[u].chosen)
  {
    LeaseInvOnRun(states, n);
    var s := states[n];
    assert ClaimOk(s.claims[st], s.rows) && ClaimOk(s.claims[u], s.rows);
    assert LocksOf(s.claims, st) !! LocksOf(s.claims, u);
  }

  /** A claim in flight has chosen no row that a completion holds. */
  lemma ClaimsSpareHeldRows(states: seq<State>, n: nat, st: StmtId, t: TaskId)
    requires Run(states) && n < |states| && IsScanning(states[n], st) && IsHolding(states[n], t)
    ensures states[n].tasks[t].event !in states[n].claims[st].chosen
  {
    LeaseInvOnRun(states, n);
    var s := states[n];
    assert ClaimOk(s.claims[st], s.rows);
    assert LocksOf(s.claims, st) !! HeldBy(s.tasks, t);
    assert s.tasks[t].event in HeldBy(s.tasks, t);
  }

  /** A row that a claim reaches and that nobody else has is its own from then on, taken or not. */
  lemma VisitLocks(s: State, s': State, st: StmtId)
    requires Visit(s, s', st) && !LockedAgainstClaim(s, st, s.claims[st].queue[0])
    ensures ScanLocks(s', st, s.claims[st].queue[0])
    ensures s.claims[st].queue[0] in s'.claims[st].chosen <==>
              s.claims[st].queue[0] in s.claims[st].chosen || Claimable(s.rows[s.claims[st].queue[0]], s.claims[st].now)
  {
  }

  /**
   A claim that scanned, skipped, locked and rechecked in many steps commits as one atomic
   claim: at the commit its rows are distinct, at most `limit`, and all claimable under its
   stamp, and no other row changes.
   */
  lemma ClaimCommitsAtomically(states: seq<State>, n: nat, s': State, st: StmtId, delivered: bool)
    requires Run(states) && n < |states| && CommitClaim(states[n], s', st, delivered)
    ensures var c := states[n].claims[st];
            && NoRepeats(c.chosen) && |c.chosen| <= c.limit
            && (forall id | id in c.chosen ::
                  && id in states[n].rows && Claimable(states[n].rows[id], c.now)
                  && s'.rows[id] == Claimed(states[n].rows[id], c.owner, c.now, c.leaseMs))
            && (forall id | id in states[n].rows && id !in c.chosen :: s'.rows[id] == states[n].rows[id])
            && s'.rows.Keys == states[n].rows.Keys
  {
    ClaimOkOnRun(states, n, st);
  }

  // ---------------------------------------------------------------- fencing

  /** From the claim of another worker on, until `w` claims the event again. */
  ghost predicate LostAt(states: seq<State>, i: nat, j: nat, id: EventId, w: WorkerId)
    requires i <= j < |states|
  {
    && id in states[i].leases && states[i].leases[id] != [] && Last(states[i].leases[id]).owner != w
    && id in states[j].leases
    && forall k | |states[i].leases[id]| <= k < |states[j].leases[id]| :: states[j].leases[id][k].owner != w
  }

  lemma LastNotMine(states: seq<State>, i: nat, j: nat, id: EventId, w: WorkerId)
    requires Run(states) && i <= j < |states| && LostAt(states, i, j, id, w)
    ensures states[j].leases[id] != [] && Last(states[j].leases[id]).owner != w
    ensures id in states[j].rows
  {
    LeasesGrowOnRun(states, i, j, id);
    RowOkOnRun(states, j, id);
  }

  /**
   Fencing: after another worker's claim, and until `w` claims the event again, `w` does not own
   the row, holds no lock on it, and every completion step of its tasks answers false and leaves
   the table as it is.
   */
  lemma StaleWorkerIsFenced(states: seq<State>, i: nat, j: nat, id: EventId, w: WorkerId, t: TaskId)
    requires Run(states) && i <= j < |states| && LostAt(states, i, j, id, w)
    requires t in states[j].tasks && states[j].tasks[t].owner == w && states[j].tasks[t].event == id
    ensures id in states[j].rows && !Owns(states[j].rows[id], w) && !IsHolding(states[j], t)
    ensures forall s', now | StartComplete(states[j], s', t, now) ::
              s'.tasks[t].stage == Answered(No) && s'.rows == states[j].rows
    ensures forall s' | LockComplete(states[j], s', t) ::
              s'.tasks[t].stage == Answered(No) && s'.rows == states[j].rows
    ensures forall s' :: !CommitComplete(states[j], s', t)
  {
    LastNotMine(states, i, j, id, w);
    RowOkOnRun(states, j, id);
    TaskOkOnRun(states, j, t);
  }

  /** Whoever completed an event was the worker of its last claim. */
  lemma OnlyLastOwnerCompletes(states: seq<State>, n: nat, id: EventId)
    requires Run(states) && n < |states| && id in states[n].completer
    ensures id in states[n].leases && states[n].leases[id] != []
    ensures states[n].completer[id] in states[n].tasks
    ensures states[n].tasks[states[n].completer[id]].owner == Last(states[n].leases[id]).owner
  {
    DoneInvOnRun(states, n);
    assert CompletedBy(states[n].rows, states[n].leases, id, states[n].tasks, states[n].completer[id]);
  }

  // ---------------------------------------------------------------- finality

  /** A processed row never changes again. */
  lemma ProcessedIsFinal(states: seq<State>, i: nat, j: nat, id: EventId)
    requires Run(states) && i <= j < |states| && IsProcessed(states[i].rows, id)
    ensures id in states[j].rows && states[j].rows[id] == states[i].rows[id]
    ensures id in states[i].completer && id in states[j].completer && states[j].completer[id] == states[i].completer[id]
  {
    DoneInvOnRun(states, i);
    GrowsOnRun(states, i, j);
  }
}
