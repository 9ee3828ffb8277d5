/**
 Nothing accepted is lost, and nothing accepted is stuck: claims take it up again, and from every
 state there is a way to finish it.
 */
module Recovery {
  import opened Schema
  import opened EventModel
  import opened Ledger
  import opened Protocol
  import opened LeaseProofs
  import opened CompletionProofs
  import opened Runs
  import opened AdmissionTheorems
  import opened ClaimScan
  import opened StoreModel
  import opened Reach

  /**
   Once `202` was answered, through any crashes, aborts and lost replies, the event stays in the
   table with the same content.
   */
  lemma AcceptedIsNeverLost(states: seq<State>, i: nat, j: nat, tx: TxId, outcome: Outcome)
    requires Run(states) && i <= j < |states| && Received(states[i], tx, outcome) && !outcome.Conflict?
    ensures outcome.id in states[i].rows && outcome.id in states[j].rows
    ensures states[j].rows[outcome.id].content == states[i].rows[outcome.id].content
    ensures outcome.Created? ==> states[j].rows[outcome.id].content == states[i].admissions[tx].req.content
  {
    AdmitInvOnRun(states, i);
    var id := SlotOfReply(states[i], tx, outcome);
    if outcome.Created? {
      CreatedContent(states[i], tx, outcome);
    }
    RowsGrowOnRun(states, i, j, id);
  }

  lemma UnfinishedIsClaimable(row: Row, h: seq<Lease>, now: int)
    requires RowOk(row, h) && row.life.status != Processed
    requires row.life.leaseExpiresAt.Some? ==> row.life.leaseExpiresAt.value <= now
    ensures Claimable(row, now)
  {
  }

  /** What the commit of a claim does to a row it chose. */
  lemma CommitGivesLease(s: State, s': State, st: StmtId, delivered: bool, id: EventId)
    requires CommitClaim(s, s', st, delivered) && id in s.claims[st].chosen && id in s.rows && id in s.leases
    ensures id in s'.rows && Owns(s'.rows[id], s.claims[st].owner) && s'.rows[id].content == s.rows[id].content
    ensures id in s'.leases && s'.leases[id] == s.leases[id] + [ClaimLease(s.claims[st])]
  {
  }

  /**
   An event that was answered `202` and is not processed is taken by every claim that begins after
   its lease has run out, is as large as the table, and is not kept from the row by another
   statement, whatever else runs; the claim's commit makes its worker the owner.
   */
  lemma AcceptedIsTakenUp(
    states: seq<State>, n: nat, tx: TxId, outcome: Outcome,
    i: nat, j: nat, st: StmtId, owner: WorkerId, limit: nat, leaseMs: int, now: int, queue: seq<EventId>)
    requires Scans(states, i, j, st, owner, limit, leaseMs, now, queue) && DoneScanning(states[j].claims[st])
    requires n <= i && Received(states[n], tx, outcome) && !outcome.Conflict?
    requires limit >= |states[i].rows| && !IsProcessed(states[i].rows, outcome.id)
    requires outcome.id in states[i].rows && states[i].rows[outcome.id].life.leaseExpiresAt.Some? ==>
               states[i].rows[outcome.id].life.leaseExpiresAt.value <= now
    requires forall k | i < k < j :: !LockedAgainstClaim(states[k], st, outcome.id)
    ensures outcome.id in states[j].claims[st].chosen && outcome.id in states[n].rows && outcome.id in states[j].leases
    ensures forall s', delivered | CommitClaim(states[j], s', st, delivered) ::
              && outcome.id in s'.rows && outcome.id in s'.leases && Owns(s'.rows[outcome.id], owner)
              && s'.rows[outcome.id].content == states[n].rows[outcome.id].content
              && s'.leases[outcome.id] == states[j].leases[outcome.id] + [Lease(owner, now, now + leaseMs * 1000)]
  {
    var id := outcome.id;
    AcceptedIsNeverLost(states, n, i, tx, outcome);
    AcceptedIsNeverLost(states, n, j, tx, outcome);
    RowOkOnRun(states, i, id);
    RowOkOnRun(states, j, id);
    UnfinishedIsClaimable(states[i].rows[id], states[i].leases[id], now);
    LargeClaimRecovers(states, i, j, st, owner, limit, leaseMs, now, queue, id);
    forall s', delivered | CommitClaim(states[j], s', st, delivered)
      ensures id in s'.rows && id in s'.leases && Owns(s'.rows[id], owner)
      ensures s'.rows[id].content == states[n].rows[id].content
      ensures s'.leases[id] == states[j].leases[id] + [Lease(owner, now, now + leaseMs * 1000)]
    {
      CommitGivesLease(states[j], s', st, delivered, id);
    }
  }

  // ---------------------------------------------------------------- no dead end

  /** No statement other than claim `st` has the row. */
  ghost predicate FreeFor(s: State, st: StmtId, id: EventId) {
    && (forall u | u != st :: !ScanLocks(s, u, id))
    && (forall t :: !HoldLocks(s, t, id))
  }

  /** No attempt counter is at its maximum. */
  ghost predicate CountersOpen(rows: Table) {
    forall id | id in rows :: rows[id].life.attempts < MAX_ATTEMPTS
  }

  lemma {:induction false} CandidatesExist(rows: Table, ids: set<EventId>) returns (queue: seq<EventId>)
    requires ids <= rows.Keys
    ensures OldestFirst(rows, queue) && forall id :: id in queue <==> id in ids
    decreases |ids|
  {
    if ids == {} {
      queue := [];
    } else {
      OldestExists(rows, ids);
      var first :| IsOldest(rows, ids, first);
      var rest := CandidatesExist(rows, ids - {first});
      queue := [first] + rest;
      forall i, j | 0 <= i < j < |queue| ensures Older(rows, queue[i], queue[j]) {
        assert queue[j] in rest;
        assert queue[j] in ids && queue[j] != first;
      }
    }
  }

  lemma FreshNumber(used: set<nat>) returns (n: nat)
    ensures n !in used
  {
    n := 0;
    var rest := used;
    while rest != {}
      invariant forall x | x in used && x !in rest :: x < n
      decreases rest
    {
      var x :| x in rest;
      rest := rest - {x};
      if n <= x {
        n := x + 1;
      }
    }
  }

  /** A claim begins with room for every claimable row. */
  lemma BeginWide(s0: State, s: State, id: EventId, now: int) returns (st: StmtId, s': State)
    requires Leads(s0, s) && id in s.rows && Claimable(s.rows[id], now)
    ensures Leads(s0, s') && IsScanning(s', st) && st !in s.claims
    ensures s' == s.(claims := s.claims[st := s'.claims[st]])
    ensures var c := s'.claims[st];
            && ClaimOk(c, s.rows) && c.owner == 0 && c.now == now && id in c.queue && |c.chosen| + |c.queue| < c.limit
  {
    st := FreshNumber(s.claims.Keys);
    var queue := CandidatesExist(s.rows, set x | x in s.rows && Claimable(s.rows[x], now));
    s' := s.(claims := s.claims[st := Scanning(0, |queue| + 1, 1000, now, queue, {}, [])]);
    CandidatesNoRepeats(s.rows, now, queue);
    LeadsOn(s0, s, s', Claiming(BeginClaimStep(st, 0, |queue| + 1, 1000, now, queue)));
  }

  /** Visits every row that is left; a free, claimable candidate ends up chosen. */
  lemma {:induction false} VisitAll(s0: State, s: State, st: StmtId, id: EventId) returns (s': State)
    requires Leads(s0, s) && IsScanning(s, st) && ClaimOk(s.claims[st], s.rows) && FreeFor(s, st, id)
    requires |s.claims[st].chosen| + |s.claims[st].queue| < s.claims[st].limit
    requires id in s.rows && Claimable(s.rows[id], s.claims[st].now)
    requires (id in s.claims[st].queue || id in s.claims[st].chosen)
    ensures Leads(s0, s') && IsScanning(s', st) && s' == s.(claims := s.claims[st := s'.claims[st]])
    ensures var c := s'.claims[st];
            ClaimOk(c, s.rows) && c.queue == [] && c.owner == s.claims[st].owner && id in c.chosen
    decreases |s.claims[st].queue|
  {
    var c := s.claims[st];
    if c.queue == [] {
      s' := s;
      assert s.claims[st := c] == s.claims;
    } else {
      var next := VisitOne(s0, s, st, id);
      s' := VisitAll(s0, next, st, id);
      assert next.claims[st := s'.claims[st]] == s.claims[st := s'.claims[st]];
    }
  }

  lemma VisitOne(s0: State, s: State, st: StmtId, id: EventId) returns (s': State)
    requires Leads(s0, s) && IsScanning(s, st) && ClaimOk(s.claims[st], s.rows) && FreeFor(s, st, id)
    requires s.claims[st].queue != [] && |s.claims[st].chosen| + |s.claims[st].queue| < s.claims[st].limit
    requires id in s.rows && Claimable(s.rows[id], s.claims[st].now)
    requires (id in s.claims[st].queue || id in s.claims[st].chosen)
    ensures Leads(s0, s') && IsScanning(s', st) && s' == s.(claims := s.claims[st := s'.claims[st]])
    ensures FreeFor(s', st, id)
    ensures var c, c' := s.claims[st], s'.claims[st];
            && ClaimOk(c', s.rows) && c'.queue == c.queue[1..]
            && c'.owner == c.owner && c'.now == c.now && c'.limit == c.limit
            && |c'.chosen| + |c'.queue| < c'.limit && (id in c'.queue || id in c'.chosen)
  {
    VisitedOk(s, st);
    s' := s.(claims := s.claims[st := Visited(s, st)]);
    LeadsOn(s0, s, s', Claiming(VisitStep(st)));
    OtherLocksSame(s, s', st, id);
    assert s.claims[st].queue[0] == id ==> !LockedAgainstClaim(s, st, id);
    assert s.claims[st].queue == [s.claims[st].queue[0]] + s.claims[st].queue[1..];
  }

  lemma OtherLocksSame(s: State, s': State, st: StmtId, id: EventId)
    requires FreeFor(s, st, id) && s'.tasks == s.tasks && st in s'.claims
    requires s'.claims == s.claims[st := s'.claims[st]]
    ensures FreeFor(s', st, id)
  {
    forall u | u != st ensures !ScanLocks(s', u, id) {
      assert !ScanLocks(s, u, id);
    }
    forall t ensures !HoldLocks(s', t, id) {
      assert !HoldLocks(s, t, id);
    }
  }

  /** The batch commits, is answered, and a task is spawned for the event. */
  lemma CommitAndSpawn(s0: State, s: State, st: StmtId, id: EventId) returns (t: TaskId, s': State)
    requires Leads(s0, s) && IsScanning(s, st) && s.claims[st].queue == [] && id in s.claims[st].chosen
    requires ClaimOk(s.claims[st], s.rows) && FreeFor(s, st, id)
    requires CountersOpen(s.rows)
    ensures Leads(s0, s') && t in s'.tasks && id in s'.rows && Owns(s'.rows[id], s.claims[st].owner)
    ensures s'.tasks[t] == Task(s.claims[st].owner, id, st, Running, false)
    ensures FreeFor(s', st, id) && !IsScanning(s', st)
  {
    var claimed := CommitAll(s0, s, st, id);
    var k :| 0 <= k < |claimed.claims[st].batch| && claimed.claims[st].batch[k] == id;
    t := FreshNumber(claimed.tasks.Keys);
    var c := claimed.claims[st];
    s' := claimed.(
      claims := claimed.claims[st := c.(spawned := c.spawned + {k})],
      tasks := claimed.tasks[t := Task(c.owner, id, st, Running, false)]);
    LeadsOn(s0, claimed, s', Claiming(SpawnStep(t, st, k)));
    forall u | u != st ensures !ScanLocks(s', u, id) {
      assert !ScanLocks(claimed, u, id);
    }
    forall u ensures !HoldLocks(s', u, id) {
      assert !HoldLocks(claimed, u, id);
    }
  }

  lemma CommitAll(s0: State, s: State, st: StmtId, id: EventId) returns (s': State)
    requires Leads(s0, s) && IsScanning(s, st) && s.claims[st].queue == [] && id in s.claims[st].chosen
    requires ClaimOk(s.claims[st], s.rows) && FreeFor(s, st, id)
    requires CountersOpen(s.rows)
    ensures Leads(s0, s') && s'.tasks == s.tasks && FreeFor(s', st, id)
    ensures id in s'.rows && Owns(s'.rows[id], s.claims[st].owner)
    ensures st in s'.claims && s'.claims[st] == Returned(s.claims[st].owner, s.claims[st].chosen, {})
  {
    var c, ids := s.claims[st], IdSet(s.claims[st].chosen);
    s' := s.(
      rows := ClaimRows(s.rows, ids, c.owner, c.now, c.leaseMs),
      claims := s.claims[st := Returned(c.owner, c.chosen, {})],
      leases := ExtendLeases(s.leases, ids, ClaimLease(c)),
      lastClaim := MarkClaimed(s.lastClaim, ids, st),
      moved := s.moved + |c.chosen|,
      reclaimed := s.reclaimed + |Reclaims(s.rows, ids)|);
    LeadsOn(s0, s, s', Claiming(CommitClaimStep(st, true)));
    OtherLocksSame(s, s', st, id);
  }

  /** The task finishes and its completion commits. */
  lemma CompleteIt(s0: State, s: State, st: StmtId, t: TaskId, w: WorkerId, id: EventId) returns (s': State)
    requires Leads(s0, s) && t in s.tasks && s.tasks[t] == Task(w, id, st, Running, false)
    requires id in s.rows && Owns(s.rows[id], w) && FreeFor(s, st, id) && !IsScanning(s, st)
    ensures Leads(s0, s') && IsProcessed(s'.rows, id)
  {
    var holding := LockIt(s0, s, st, t, w, id);
    s' := WithStage(holding, t, Answered(Yes)).(
      rows := s.rows[id := Completed(s.rows[id], 0)], completer := s.completer[id := t]);
    LeadsOn(s0, holding, s', Tasking(CommitCompleteStep(t)));
  }

  lemma LockIt(s0: State, s: State, st: StmtId, t: TaskId, w: WorkerId, id: EventId) returns (s': State)
    requires Leads(s0, s) && t in s.tasks && s.tasks[t] == Task(w, id, st, Running, false)
    requires id in s.rows && Owns(s.rows[id], w) && FreeFor(s, st, id) && !IsScanning(s, st)
    ensures Leads(s0, s') && s' == WithStage(s, t, Holding(0))
  {
    var matched := WithStage(s, t, Completing(0));
    LeadsOn(s0, s, matched, Tasking(StartCompleteStep(t, 0)));
    NotLockedAgainst(s, matched, st, t, id);
    s' := WithStage(s, t, Holding(0));
    LeadsOn(s0, matched, s', Tasking(LockCompleteStep(t)));
  }

  lemma NotLockedAgainst(s: State, matched: State, st: StmtId, t: TaskId, id: EventId)
    requires t in s.tasks && matched == WithStage(s, t, Completing(0)) && FreeFor(s, st, id) && !IsScanning(s, st)
    ensures !LockedAgainstTask(matched, t, id)
  {
    forall u ensures !ScanLocks(matched, u, id) {
      assert u == st || !ScanLocks(s, u, id);
    }
    forall u | u != t ensures !HoldLocks(matched, u, id) {
      assert !HoldLocks(s, u, id);
    }
  }

  /** The claim that has the row locked gives up. */
  lemma AbortHolder(s: State, u: StmtId, id: EventId) returns (s': State)
    requires LocksApart(s.claims, s.tasks) && ScanLocks(s, u, id)
    ensures Leads(s, s') && s'.rows == s.rows
    ensures forall st :: FreeFor(s', st, id)
  {
    LeadsHere(s);
    s' := s.(claims := s.claims[u := Dropped(s.claims[u].owner, [])]);
    LeadsOn(s, s, s', Claiming(AbortClaimStep(u)));
    forall v ensures !ScanLocks(s', v, id) {
      assert LocksOf(s.claims, u) !! LocksOf(s.claims, v) || u == v;
    }
    forall t ensures !HoldLocks(s', t, id) {
      assert LocksOf(s.claims, u) !! HeldBy(s.tasks, t);
    }
  }

  /** With nobody at the row, some worker can claim the event and finish it. */
  lemma FinishFree(s0: State, s: State, id: EventId, h: seq<Lease>) returns (s': State)
    requires Leads(s0, s) && id in s.rows && RowOk(s.rows[id], h) && s.rows[id].life.status != Processed
    requires forall st :: FreeFor(s, st, id)
    requires CountersOpen(s.rows)
    ensures Leads(s0, s') && IsProcessed(s'.rows, id)
  {
    var now := if s.rows[id].life.leaseExpiresAt.Some? then s.rows[id].life.leaseExpiresAt.value else 0;
    UnfinishedIsClaimable(s.rows[id], h, now);
    var st, begun := BeginWide(s0, s, id, now);
    OtherLocksSame(s, begun, st, id);
    var scanned := VisitAll(s0, begun, st, id);
    OtherLocksSame(begun, scanned, st, id);
    var t, spawned := CommitAndSpawn(s0, scanned, st, id);
    s' := CompleteIt(s0, spawned, st, t, scanned.claims[st].owner, id);
  }

  /**
   No dead end: from every state of every run in which no attempt counter is at its maximum, each
   event that is not processed has a continuation that ends with it processed, whatever statements
   are in flight and whatever locks they hold.
   */
  lemma NoDeadEnd(states: seq<State>, id: EventId) returns (longer: seq<State>)
    requires Run(states) && id in states[|states| - 1].rows && !IsProcessed(states[|states| - 1].rows, id)
    requires CountersOpen(states[|states| - 1].rows)
    ensures Run(longer) && states <= longer && IsProcessed(longer[|longer| - 1].rows, id)
  {
    var s := states[|states| - 1];
    LeaseInvOnRun(states, |states| - 1);
    RowOkOnRun(states, |states| - 1, id);
    var s' := FinishFrom(s, id);
    longer := RunGoesOn(states, s');
  }

  lemma FinishFrom(s: State, id: EventId) returns (s': State)
    requires LockInv(s) && id in s.rows && id in s.leases && RowOk(s.rows[id], s.leases[id])
    requires s.rows[id].life.status != Processed
    requires CountersOpen(s.rows)
    ensures Leads(s, s') && IsProcessed(s'.rows, id)
  {
    LeadsHere(s);
    if t :| HoldLocks(s, t, id) {
      s' := WithStage(s, t, Answered(Yes)).(
        rows := s.rows[id := Completed(s.rows[id], s.tasks[t].stage.now)], completer := s.completer[id := t]);
      LeadsOn(s, s, s', Tasking(CommitCompleteStep(t)));
    } else if u :| ScanLocks(s, u, id) {
      var free := AbortHolder(s, u, id);
      s' := FinishFree(s, free, id, s.leases[id]);
    } else {
      s' := FinishFree(s, s, id, s.leases[id]);
    }
  }
}
