/**
 What can always happen: every statement can fail and every reply can be lost, at any moment and
 without a trace in the table; and every request that is not cut off can be answered.
 */
module Faults {
  import opened Utf8
  import opened Schema
  import opened Ledger
  import opened Protocol
  import opened AdmissionProofs
  import opened Runs
  import opened AdmissionTheorems
  import opened Reach

  // ---------------------------------------------------------------- faults

  /** An open transaction can end without a reply and without a trace. */
  lemma AdmissionCanAbort(s: State, tx: TxId) returns (s': State)
    requires tx in s.admissions && !s.admissions[tx].phase.Closed?
    ensures NextStep(s, s', Admitting(AbortAdmitStep(tx)))
    ensures s' == s.(admissions := s'.admissions) && s'.admissions[tx].phase == Closed(None)
  {
    s' := WithPhase(s, tx, Closed(None));
  }

  /** A commit can lose its reply; the table and the order of commits are those of an answered one. */
  lemma InsertCanLoseReply(s: State, s': State, tx: TxId) returns (s'': State)
    requires CommitInsert(s, s', tx, true)
    ensures NextStep(s, s'', Admitting(CommitInsertStep(tx, false)))
    ensures tx in s''.admissions && s''.admissions[tx].phase == Closed(None) && s'' == s'.(admissions := s''.admissions)
  {
    s'' := WithPhase(s', tx, Closed(None));
  }

  lemma LookupCanLoseReply(s: State, s': State, tx: TxId) returns (s'': State)
    requires CommitLookup(s, s', tx, true)
    ensures NextStep(s, s'', Admitting(CommitLookupStep(tx, false)))
    ensures tx in s''.admissions && s''.admissions[tx].phase == Closed(None) && s'' == s'.(admissions := s''.admissions)
  {
    s'' := WithPhase(s', tx, Closed(None));
  }

  /** So can a claim, which then has moved its rows for nobody. */
  lemma ClaimCanLoseReply(s: State, s': State, st: StmtId) returns (s'': State)
    requires CommitClaim(s, s', st, true)
    ensures NextStep(s, s'', Claiming(CommitClaimStep(st, false))) && s'' == s'.(claims := s''.claims)
    ensures s''.claims[st] == Dropped(s.claims[st].owner, s.claims[st].chosen)
  {
    s'' := s'.(claims := s'.claims[st := Dropped(s.claims[st].owner, s.claims[st].chosen)]);
  }

  /** A claim can fail before its commit, and gives its locks back. */
  lemma ClaimCanAbort(s: State, st: StmtId) returns (s': State)
    requires IsScanning(s, st)
    ensures NextStep(s, s', Claiming(AbortClaimStep(st)))
    ensures s' == s.(claims := s'.claims) && forall id :: !ScanLocks(s', st, id)
  {
    s' := s.(claims := s.claims[st := Dropped(s.claims[st].owner, [])]);
  }

  /** A completion can fail before its commit, and its task then counts a failure. */
  lemma CompletionCanFail(s: State, t: TaskId) returns (s': State, s'': State)
    requires t in s.tasks && (s.tasks[t].stage.Completing? || s.tasks[t].stage.Holding?) && !s.tasks[t].gone
    ensures NextStep(s, s', Tasking(FailCompleteStep(t))) && NextStep(s', s'', Tasking(DeliverStep(t, true)))
    ensures s'' == s.(tasks := s''.tasks) && s''.tasks[t].stage == Ended(CountedFailed)
  {
    s' := WithStage(s, t, Answered(Error));
    s'' := WithStage(s', t, Ended(CountedFailed));
  }

  /** Any tasks can go with their process at any moment. */
  lemma TasksCanGo(s: State, ts: set<TaskId>) returns (s': State)
    ensures NextStep(s, s', Tasking(AbandonStep(ts))) && s' == s.(tasks := s'.tasks)
    ensures forall t | t in s.tasks && t in ts :: t in s'.tasks && s'.tasks[t].gone
  {
    s' := s.(tasks := map t | t in s.tasks :: if t in ts then s.tasks[t].(gone := true) else s.tasks[t]);
  }

  // ---------------------------------------------------------------- every request can be answered

  /** From a conflict on, the lookup answers. */
  lemma LookUp(s0: State, s: State, tx: TxId) returns (s': State, outcome: Outcome)
    requires Leads(s0, s) && InPhase(s, tx, Blocked) && ScopeTaken(s.rows, ScopeOf(s.admissions[tx].req.content))
    ensures Leads(s0, s') && Received(s', tx, outcome)
  {
    var req := s.admissions[tx].req;
    var id :| id in s.rows && ScopeOf(s.rows[id].content) == ScopeOf(req.content);
    outcome := if s.rows[id].content.fingerprint == req.content.fingerprint then Replayed(id) else Conflict;
    var found := WithPhase(s, tx, Found(outcome));
    LeadsOn(s0, s, found, Admitting(LookupStep(tx, Some(id))));
    s' := AnswerFound(s0, found, tx, outcome);
  }

  lemma AnswerFound(s0: State, s: State, tx: TxId, outcome: Outcome) returns (s': State)
    requires Leads(s0, s) && InPhase(s, tx, Found(outcome))
    ensures Leads(s0, s') && Received(s', tx, outcome)
  {
    s' := WithPhase(s, tx, Closed(Some(outcome))).(
      served := s.served + [Served(tx, s.admissions[tx].req, outcome)]);
    LeadsOn(s0, s, s', Admitting(CommitLookupStep(tx, true)));
  }

  lemma AnswerInserted(s0: State, s: State, tx: TxId) returns (s': State)
    requires Leads(s0, s) && InPhase(s, tx, Inserted)
    ensures Leads(s0, s') && Received(s', tx, Created(s.admissions[tx].req.id))
    ensures s'.rows == s.rows[s.admissions[tx].req.id := Row(s.admissions[tx].req.content, NEW_LIFE)]
    ensures forall u | u in s.admissions && u != tx :: u in s'.admissions && s'.admissions[u] == s.admissions[u]
  {
    var req := s.admissions[tx].req;
    s' := WithPhase(s, tx, Closed(Some(Created(req.id)))).(
      rows := s.rows[req.id := Row(req.content, NEW_LIFE)],
      leases := s.leases[req.id := []],
      served := s.served + [Served(tx, req, Created(req.id))]);
    LeadsOn(s0, s, s', Admitting(CommitInsertStep(tx, true)));
  }

  lemma ConflictThenLookUp(s0: State, s: State, tx: TxId) returns (s': State, outcome: Outcome)
    requires Leads(s0, s) && InPhase(s, tx, Begun) && ScopeTaken(s.rows, ScopeOf(s.admissions[tx].req.content))
    ensures Leads(s0, s') && Received(s', tx, outcome)
  {
    var blocked := WithPhase(s, tx, Blocked);
    LeadsOn(s0, s, blocked, Admitting(InsertConflictsStep(tx)));
    s', outcome := LookUp(s0, blocked, tx);
  }

  /** No other event or request has the ID: what a fresh UUID is for. */
  ghost predicate OwnId(s: State, tx: TxId)
    requires tx in s.admissions
  {
    && s.admissions[tx].req.id !in s.rows
    && forall u | u in s.admissions && u != tx :: s.admissions[u].req.id != s.admissions[tx].req.id
  }

  lemma AnswerBegun(s: State, tx: TxId) returns (s': State, outcome: Outcome)
    requires InPhase(s, tx, Begun) && OwnId(s, tx)
    ensures Leads(s, s') && Received(s', tx, outcome)
  {
    LeadsHere(s);
    var scope := ScopeOf(s.admissions[tx].req.content);
    if ScopeTaken(s.rows, scope) {
      s', outcome := ConflictThenLookUp(s, s, tx);
    } else if MustWait(s, tx) {
      var u, _ := WaitsOnCommittable(s, tx);
      var committed := AnswerInserted(s, s, u);
      assert s.admissions[u].req.id in committed.rows;
      s', outcome := ConflictThenLookUp(s, committed, tx);
    } else {
      var inserted := WithPhase(s, tx, Inserted);
      LeadsOn(s, s, inserted, Admitting(InsertStep(tx)));
      s' := AnswerInserted(s, inserted, tx);
      outcome := Created(s.admissions[tx].req.id);
    }
  }

  /**
   From every state of every run, every open request with an ID of its own has a continuation in which
   its caller is answered, whatever other transactions are doing and even if it must wait for one.
   */
  lemma EveryRequestCanBeAnswered(states: seq<State>, tx: TxId) returns (longer: seq<State>, outcome: Outcome)
    requires Run(states) && tx in states[|states| - 1].admissions
    requires !states[|states| - 1].admissions[tx].phase.Closed?
    requires states[|states| - 1].admissions[tx].phase == Begun ==> OwnId(states[|states| - 1], tx)
    ensures Run(longer) && states <= longer && Received(longer[|longer| - 1], tx, outcome)
  {
    var s := states[|states| - 1];
    AdmitInvOnRun(states, |states| - 1);
    var s', o := AnswerOpen(s, Replay(s.served), tx);
    outcome := o;
    longer := RunGoesOn(states, s');
  }

  lemma AnswerOpen(s: State, m: Slots, tx: TxId) returns (s': State, outcome: Outcome)
    requires TxInv(s, m) && tx in s.admissions && !s.admissions[tx].phase.Closed?
    requires s.admissions[tx].phase == Begun ==> OwnId(s, tx)
    ensures Leads(s, s') && Received(s', tx, outcome)
  {
    LeadsHere(s);
    assert TxOk(tx, s.admissions[tx], s.rows, m, s.served);
    match s.admissions[tx].phase
    case Begun => s', outcome := AnswerBegun(s, tx);
    case Inserted =>
      s' := AnswerInserted(s, s, tx);
      outcome := Created(s.admissions[tx].req.id);
    case Blocked =>
      ReflectsTaken(m, s.rows, ScopeOf(s.admissions[tx].req.content));
      s', outcome := LookUp(s, s, tx);
    case Found(o) =>
      s' := AnswerFound(s, s, tx, o);
      outcome := o;
  }
}
