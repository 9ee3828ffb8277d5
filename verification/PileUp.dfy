/** A worker that takes one event at a time, and whose tasks fail. */
module FailingWorker {
  import opened Utf8
  import opened Coverage
  import opened Schema
  import opened Ledger
  import opened Protocol
  import opened Bounded
  import opened Ownership

  /** Valid requests for different events and scopes. */
  ghost predicate Distinct(reqs: seq<Request>) {
    && (forall i | 0 <= i < |reqs| :: ValidContent(reqs[i].content))
    && (forall i, j | 0 <= i < j < |reqs| ::
          reqs[i].id != reqs[j].id && ScopeOf(reqs[i].content) != ScopeOf(reqs[j].content))
  }

  ghost predicate AmongFirst(id: EventId, c: Content, reqs: seq<Request>, n: nat) {
    exists i :: 0 <= i < n && i < |reqs| && reqs[i].id == id && reqs[i].content == c
  }

  /** Owned by `w` under a lease that has not run out at time 0. */
  ghost predicate Held(row: Row, w: WorkerId) {
    Owns(row, w) && row.life.leaseExpiresAt == Some(1_000_000)
  }

  /** The rows are those of the first `n` requests, all held by `w`. */
  ghost predicate AllHeld(rows: Table, reqs: seq<Request>, n: nat, w: WorkerId) {
    && |rows| == n
    && (forall id | id in rows :: Held(rows[id], w) && AmongFirst(id, rows[id].content, reqs, n))
  }

  /** Transactions, claims and tasks are numbered below `n`; each claim took one row; each task ended. */
  ghost predicate Numbered(s: State, n: nat) {
    && (forall tx | tx in s.admissions :: tx < n)
    && (forall st | st in s.claims :: st < n && s.claims[st].Returned? && |s.claims[st].batch| == 1)
    && (forall t | t in s.tasks :: t < n && s.tasks[t].stage.Ended?)
  }

  lemma NewToTable(rows: Table, reqs: seq<Request>, n: nat, w: WorkerId)
    requires Distinct(reqs) && n < |reqs| && AllHeld(rows, reqs, n, w)
    ensures reqs[n].id !in rows && !ScopeTaken(rows, ScopeOf(reqs[n].content))
  {
    forall id | id in rows ensures id != reqs[n].id && ScopeOf(rows[id].content) != ScopeOf(reqs[n].content) {
      assert AmongFirst(id, rows[id].content, reqs, n);
    }
  }

  /** The new row is the only one that can be claimed at time 0. */
  lemma OnlyNewIsClaimable(rows: Table, req: Request, w: WorkerId)
    requires req.id !in rows && forall id | id in rows :: Held(rows[id], w)
    ensures IsCandidates(rows[req.id := Row(req.content, NEW_LIFE)], 0, [req.id])
  {
    var rows' := rows[req.id := Row(req.content, NEW_LIFE)];
    forall x | x in rows' ensures Claimable(rows'[x], 0) <==> x == req.id {
      assert x != req.id ==> Held(rows[x], w);
    }
    OnlyCandidate(rows', req.id, 0);
  }

  lemma HeldOneMore(rows: Table, reqs: seq<Request>, n: nat, w: WorkerId)
    requires AllHeld(rows, reqs, n, w) && n < |reqs| && reqs[n].id !in rows
    ensures AllHeld(rows[reqs[n].id := Claimed(Row(reqs[n].content, NEW_LIFE), w, 0, 1000)], reqs, n + 1, w)
  {
    var rows' := rows[reqs[n].id := Claimed(Row(reqs[n].content, NEW_LIFE), w, 0, 1000)];
    forall id | id in rows' ensures Held(rows'[id], w) && AmongFirst(id, rows'[id].content, reqs, n + 1) {
      if id != reqs[n].id {
        assert AmongFirst(id, rows[id].content, reqs, n);
      }
    }
  }

  /** A new request is admitted and claimed. */
  lemma TakeRound(s: State, n: nat, req: Request, w: WorkerId) returns (s': State)
    requires Within(s, w, 1) && Idle(s) && n !in s.admissions && n !in s.claims && n !in s.tasks
    requires LiveTasks(s, w) == {}
    requires ValidContent(req.content) && req.id !in s.rows && !ScopeTaken(s.rows, ScopeOf(req.content))
    requires IsCandidates(s.rows[req.id := Row(req.content, NEW_LIFE)], 0, [req.id])
    ensures Within(s', w, 1) && Idle(s')
    ensures s'.rows == s.rows[req.id := Claimed(Row(req.content, NEW_LIFE), w, 0, 1000)]
    ensures s'.admissions.Keys == s.admissions.Keys + {n}
    ensures s'.claims == s.claims[n := Returned(w, [req.id], {0})]
    ensures s'.tasks == s.tasks[n := Task(w, req.id, n, Running, false)]
  {
    var admitted := AdmitRound(s, n, req, w, 1);
    assert LiveTasks(admitted, w) == {};
    s' := ClaimRound(admitted, req.id, n, n, w, 1, 0);
    assert admitted.rows[req.id := Claimed(Row(req.content, NEW_LIFE), w, 0, 1000)]
        == s.rows[req.id := Claimed(Row(req.content, NEW_LIFE), w, 0, 1000)];
  }

  /** Then its task fails. */
  lemma FailRound(s: State, n: nat, req: Request, w: WorkerId) returns (s': State)
    requires Within(s, w, 1) && Idle(s) && n !in s.admissions && n !in s.claims && n !in s.tasks
    requires LiveTasks(s, w) == {}
    requires ValidContent(req.content) && req.id !in s.rows && !ScopeTaken(s.rows, ScopeOf(req.content))
    requires IsCandidates(s.rows[req.id := Row(req.content, NEW_LIFE)], 0, [req.id])
    ensures Within(s', w, 1) && Idle(s')
    ensures s'.rows == s.rows[req.id := Claimed(Row(req.content, NEW_LIFE), w, 0, 1000)]
    ensures s'.admissions.Keys == s.admissions.Keys + {n}
    ensures s'.claims == s.claims[n := Returned(w, [req.id], {0})]
    ensures s'.tasks == s.tasks[n := Task(w, req.id, n, Ended(CountedFailed), false)]
  {
    var taken := TakeRound(s, n, req, w);
    s' := WithStage(taken, n, Ended(CountedFailed));
    WithinStage(taken, s', w, 1, n, Ended(CountedFailed), Tasking(FailTaskStep(n)));
    assert taken.tasks[n := Task(w, req.id, n, Ended(CountedFailed), false)]
        == s.tasks[n := Task(w, req.id, n, Ended(CountedFailed), false)];
  }

  lemma NumberedNext(s: State, s': State, n: nat, c: Claim, t: Task)
    requires Numbered(s, n) && s'.admissions.Keys == s.admissions.Keys + {n}
    requires s'.claims == s.claims[n := c] && c.Returned? && |c.batch| == 1
    requires s'.tasks == s.tasks[n := t] && t.stage.Ended?
    ensures Numbered(s', n + 1)
  {
  }

  lemma NextRound(s: State, reqs: seq<Request>, n: nat, w: WorkerId) returns (s': State)
    requires Distinct(reqs) && n < |reqs|
    requires Within(s, w, 1) && Idle(s) && AllHeld(s.rows, reqs, n, w) && Numbered(s, n)
    ensures Within(s', w, 1) && Idle(s') && AllHeld(s'.rows, reqs, n + 1, w) && Numbered(s', n + 1)
  {
    NewToTable(s.rows, reqs, n, w);
    OnlyNewIsClaimable(s.rows, reqs[n], w);
    assert LiveTasks(s, w) == {};
    s' := FailRound(s, n, reqs[n], w);
    HeldOneMore(s.rows, reqs, n, w);
    NumberedNext(s, s', n, Returned(w, [reqs[n].id], {0}), Task(w, reqs[n].id, n, Ended(CountedFailed), false));
  }

  lemma NoRounds(reqs: seq<Request>, w: WorkerId) returns (s: State)
    ensures Within(s, w, 1) && Idle(s) && AllHeld(s.rows, reqs, 0, w) && Numbered(s, 0)
  {
    WithinStart(w, 1);
    s := INIT;
  }
}

/**
 More unfinished events than tasks.  The documentation says that claimed but unfinished events
 never exceed `concurrency`; here is a run, for any number of events, in which they do.
 */
module PileUp {
  import opened Schema
  import opened Ledger
  import opened Protocol
  import opened Coverage
  import opened Bounded
  import opened Ownership
  import opened FailingWorker

  lemma {:induction false} FailRounds(reqs: seq<Request>, n: nat, w: WorkerId) returns (s: State)
    requires Distinct(reqs) && n <= |reqs|
    ensures Within(s, w, 1) && Idle(s) && AllHeld(s.rows, reqs, n, w) && Numbered(s, n)
  {
    if n == 0 {
      s := NoRounds(reqs, w);
    } else {
      var before := FailRounds(reqs, n - 1, w);
      s := NextRound(before, reqs, n - 1, w);
    }
  }

  /**
   For every list of requests there is a run in which one worker never has more than one live task,
   as the loop does with `concurrency` 1, takes one event at a time, and ends up with all of them
   claimed and unfinished and no live task: a bound on live tasks does not bound unfinished events.
   */
  lemma UnfinishedPileUp(reqs: seq<Request>, w: WorkerId) returns (states: seq<State>)
    requires Distinct(reqs)
    ensures Run(states) && AtMost(states, w, 1)
    ensures var s := states[|states| - 1];
            && |Unfinished(s, w)| == |reqs| && LiveTasks(s, w) == {}
            && forall st | st in s.claims :: s.claims[st].Returned? && |s.claims[st].batch| == 1
  {
    var s := FailRounds(reqs, |reqs|, w);
    states := WithinIsRun(s, w, 1);
    assert Unfinished(s, w) == s.rows.Keys;
    assert |s.rows.Keys| == |s.rows|;
  }
}
