/**
 Admission under every interleaving: what each step keeps, and that the replies are those
 of the sequential ledger served in commit order.
 */
module AdmissionProofs {
  import opened Utf8
  import opened Schema
  import opened Ledger
  import opened Protocol

  type Admissions = map<TxId, Admission>

  ghost predicate IsServed(served: seq<Served>, entry: Served) {
    exists k :: 0 <= k < |served| && served[k] == entry
  }

  /** What holds of one transaction, given the ledger `m` of the committed ones. */
  ghost predicate TxOk(tx: TxId, a: Admission, rows: Table, m: Slots, served: seq<Served>) {
    && ValidContent(a.req.content)
    && match a.phase
       case Begun => true
       case Inserted => a.req.id !in rows && ScopeOf(a.req.content) !in m
       case Blocked => ScopeOf(a.req.content) in m
       case Found(outcome) => ScopeOf(a.req.content) in m && outcome == Answer(m, a.req)
       case Broken => false
       case Closed(reply) => reply.Some? ==> IsServed(served, Served(tx, a.req, reply.value))
  }

  ghost predicate TxsOk(txs: Admissions, rows: Table, m: Slots, served: seq<Served>) {
    forall tx | tx in txs :: TxOk(tx, txs[tx], rows, m, served)
  }

  ghost predicate Apart(a: Request, b: Request) {
    a.id != b.id && ScopeOf(a.content) != ScopeOf(b.content)
  }

  ghost predicate HasInserted(txs: Admissions, tx: TxId) {
    tx in txs && txs[tx].phase == Inserted
  }

  /** Uncommitted rows differ in scope and identity. */
  ghost predicate PendingApart(txs: Admissions) {
    forall t, u | t != u && HasInserted(txs, t) && HasInserted(txs, u) :: Apart(txs[t].req, txs[u].req)
  }

  /** Only closed transactions have been served, each once. */
  ghost predicate ServedOk(txs: Admissions, served: seq<Served>) {
    && (forall k | 0 <= k < |served| ::
          served[k].tx in txs && txs[served[k].tx].phase.Closed? && txs[served[k].tx].req == served[k].req)
    && (forall j, k | 0 <= j < k < |served| :: served[j].tx != served[k].tx)
  }

  /** The transactions agree with the table, the ledger `m` and the history. */
  ghost predicate TxInv(s: State, m: Slots) {
    && Reflects(m, s.rows)
    && TxsOk(s.admissions, s.rows, m, s.served)
    && PendingApart(s.admissions)
    && ServedOk(s.admissions, s.served)
  }

  ghost predicate AdmitInv(s: State) {
    Legal(s.served) && TxInv(s, Replay(s.served))
  }

  lemma AdmitInvInit()
    ensures AdmitInv(INIT)
  {
  }

  // ---------------------------------------------------------------- one transaction changes

  lemma PendingApartUpdate(txs: Admissions, tx: TxId, a: Admission)
    requires PendingApart(txs)
    requires a.phase == Inserted ==> forall u | u != tx && HasInserted(txs, u) :: Apart(a.req, txs[u].req)
    ensures PendingApart(txs[tx := a])
  {
    var txs' := txs[tx := a];
    forall t, u | t != u && HasInserted(txs', t) && HasInserted(txs', u) ensures Apart(txs'[t].req, txs'[u].req) {
      assert t == tx || HasInserted(txs, t);
      assert u == tx || HasInserted(txs, u);
    }
  }

  lemma ServedOkUpdate(txs: Admissions, served: seq<Served>, tx: TxId, a: Admission)
    requires ServedOk(txs, served)
    requires tx in txs ==> !txs[tx].phase.Closed?
    ensures ServedOk(txs[tx := a], served)
  {
  }

  /** A change that commits nothing. */
  lemma TxChangeKeeps(s: State, s': State, m: Slots, tx: TxId, a: Admission)
    requires TxInv(s, m)
    requires s' == s.(admissions := s.admissions[tx := a])
    requires tx in s.admissions ==> !s.admissions[tx].phase.Closed?
    requires TxOk(tx, a, s.rows, m, s.served)
    requires a.phase == Inserted ==>
               forall u | u != tx && HasInserted(s.admissions, u) :: Apart(a.req, s.admissions[u].req)
    ensures TxInv(s', m)
  {
    PendingApartUpdate(s.admissions, tx, a);
    ServedOkUpdate(s.admissions, s.served, tx, a);
  }

  lemma InsertKeeps(s: State, s': State, m: Slots, tx: TxId)
    requires TxInv(s, m) && Insert(s, s', tx)
    ensures TxInv(s', m)
  {
    var a := s.admissions[tx];
    ReflectsTaken(m, s.rows, ScopeOf(a.req.content));
    forall u | u != tx && HasInserted(s.admissions, u) ensures Apart(a.req, s.admissions[u].req) {
      assert InPhase(s, u, Inserted);
    }
    assert TxOk(tx, a, s.rows, m, s.served);
    TxChangeKeeps(s, s', m, tx, a.(phase := Inserted));
  }

  lemma InsertConflictsKeeps(s: State, s': State, m: Slots, tx: TxId)
    requires TxInv(s, m) && InsertConflicts(s, s', tx)
    ensures TxInv(s', m)
  {
    var a := s.admissions[tx];
    ReflectsTaken(m, s.rows, ScopeOf(a.req.content));
    assert TxOk(tx, a, s.rows, m, s.served);
    TxChangeKeeps(s, s', m, tx, a.(phase := Blocked));
  }

  /** After a conflict the lookup finds the committed row: the `Inconsistent` branch is dead. */
  lemma LookupKeeps(s: State, s': State, m: Slots, tx: TxId, found: Option<EventId>)
    requires TxInv(s, m) && Lookup(s, s', tx, found)
    ensures TxInv(s', m) && found.Some?
  {
    var a := s.admissions[tx];
    assert TxOk(tx, a, s.rows, m, s.served);
    ReflectsTaken(m, s.rows, ScopeOf(a.req.content));
    TxChangeKeeps(s, s', m, tx, s'.admissions[tx]);
  }

  lemma AbortAdmitKeeps(s: State, s': State, m: Slots, tx: TxId)
    requires TxInv(s, m) && AbortAdmit(s, s', tx)
    ensures TxInv(s', m)
  {
    var a := s.admissions[tx];
    assert TxOk(tx, a, s.rows, m, s.served);
    TxChangeKeeps(s, s', m, tx, a.(phase := Closed(None)));
  }

  // ---------------------------------------------------------------- one transaction commits

  lemma ServedOkCommit(txs: Admissions, served: seq<Served>, tx: TxId, outcome: Outcome, reply: Phase)
    requires ServedOk(txs, served) && tx in txs && !txs[tx].phase.Closed? && reply.Closed?
    ensures ServedOk(txs[tx := txs[tx].(phase := reply)], served + [Served(tx, txs[tx].req, outcome)])
  {
  }

  /** Another transaction stays as it was while the table, ledger and history grow. */
  lemma OtherTxKept(
    tx: TxId, a: Admission, rows: Table, rows': Table, m: Slots, m': Slots, served: seq<Served>, entry: Served)
    requires TxOk(tx, a, rows, m, served)
    requires forall sc | sc in m :: sc in m' && m'[sc] == m[sc]
    requires a.phase == Inserted ==> a.req.id !in rows' && ScopeOf(a.req.content) !in m'
    ensures TxOk(tx, a, rows', m', served + [entry])
  {
    if a.phase.Closed? && a.phase.reply.Some? {
      var mine := Served(tx, a.req, a.phase.reply.value);
      var k :| 0 <= k < |served| && served[k] == mine;
      assert (served + [entry])[k] == mine;
    }
  }

  lemma CommittedTxOk(
    tx: TxId, a: Admission, rows: Table, m: Slots, served: seq<Served>, outcome: Outcome, delivered: bool)
    requires ValidContent(a.req.content) && a.phase == ReplyOf(outcome, delivered)
    ensures TxOk(tx, a, rows, m, served + [Served(tx, a.req, outcome)])
  {
    assert (served + [Served(tx, a.req, outcome)])[|served|] == Served(tx, a.req, outcome);
  }

  lemma TxsOkCommit(
    txs: Admissions, rows: Table, rows': Table, m: Slots, m': Slots, served: seq<Served>,
    tx: TxId, outcome: Outcome, delivered: bool)
    requires TxsOk(txs, rows, m, served) && tx in txs
    requires forall sc | sc in m :: sc in m' && m'[sc] == m[sc]
    requires forall u | u != tx && HasInserted(txs, u) ::
               txs[u].req.id !in rows' && ScopeOf(txs[u].req.content) !in m'
    ensures TxsOk(txs[tx := txs[tx].(phase := ReplyOf(outcome, delivered))], rows', m',
                  served + [Served(tx, txs[tx].req, outcome)])
  {
    var entry := Served(tx, txs[tx].req, outcome);
    var txs' := txs[tx := txs[tx].(phase := ReplyOf(outcome, delivered))];
    forall u | u in txs' ensures TxOk(u, txs'[u], rows', m', served + [entry]) {
      assert TxOk(u, txs[u], rows, m, served);
      if u == tx {
        CommittedTxOk(tx, txs'[tx], rows', m', served, outcome, delivered);
      } else {
        assert txs[u].phase == Inserted ==> HasInserted(txs, u);
        OtherTxKept(u, txs[u], rows, rows', m, m', served, entry);
      }
    }
  }

  lemma InsertedTxOk(s: State, m: Slots, tx: TxId)
    requires TxInv(s, m) && InPhase(s, tx, Inserted)
    ensures s.admissions[tx].req.id !in s.rows && ScopeOf(s.admissions[tx].req.content) !in m
    ensures forall u | u != tx && HasInserted(s.admissions, u) :: Apart(s.admissions[u].req, s.admissions[tx].req)
  {
    assert TxOk(tx, s.admissions[tx], s.rows, m, s.served);
    assert HasInserted(s.admissions, tx);
  }

  lemma CommitInsertTxs(s: State, s': State, m: Slots, tx: TxId, delivered: bool)
    requires TxInv(s, m) && CommitInsert(s, s', tx, delivered)
    ensures TxsOk(s'.admissions, s'.rows, Record(m, s.admissions[tx].req), s'.served)
  {
    var req := s.admissions[tx].req;
    InsertedTxOk(s, m, tx);
    forall u | u != tx && HasInserted(s.admissions, u)
      ensures s.admissions[u].req.id !in s'.rows && ScopeOf(s.admissions[u].req.content) !in Record(m, req)
    {
      InsertedTxOk(s, m, u);
    }
    TxsOkCommit(s.admissions, s.rows, s'.rows, m, Record(m, req), s.served, tx, Created(req.id), delivered);
  }

  lemma CommitInsertRest(s: State, s': State, m: Slots, tx: TxId, delivered: bool)
    requires TxInv(s, m) && CommitInsert(s, s', tx, delivered)
    ensures PendingApart(s'.admissions) && ServedOk(s'.admissions, s'.served)
    ensures Reflects(Record(m, s.admissions[tx].req), s'.rows)
    ensures Answer(m, s.admissions[tx].req) == Created(s.admissions[tx].req.id)
  {
    InsertedTxOk(s, m, tx);
    RecordReflects(m, s.rows, s.admissions[tx].req);
    PendingApartUpdate(s.admissions, tx, s'.admissions[tx]);
    ServedOkCommit(s.admissions, s.served, tx, Created(s.admissions[tx].req.id), s'.admissions[tx].phase);
  }

  lemma CommitInsertKeeps(s: State, s': State, m: Slots, tx: TxId, delivered: bool)
    requires TxInv(s, m) && CommitInsert(s, s', tx, delivered)
    ensures TxInv(s', Record(m, s.admissions[tx].req))
  {
    CommitInsertTxs(s, s', m, tx, delivered);
    CommitInsertRest(s, s', m, tx, delivered);
  }

  lemma CommitLookupTxs(s: State, s': State, m: Slots, tx: TxId, delivered: bool)
    requires TxInv(s, m) && CommitLookup(s, s', tx, delivered)
    ensures TxsOk(s'.admissions, s'.rows, m, s'.served)
  {
    forall u | u != tx && HasInserted(s.admissions, u)
      ensures s.admissions[u].req.id !in s.rows && ScopeOf(s.admissions[u].req.content) !in m
    {
      InsertedTxOk(s, m, u);
    }
    TxsOkCommit(s.admissions, s.rows, s.rows, m, m, s.served, tx, s.admissions[tx].phase.outcome, delivered);
  }

  lemma CommitLookupRest(s: State, s': State, m: Slots, tx: TxId, delivered: bool)
    requires TxInv(s, m) && CommitLookup(s, s', tx, delivered)
    ensures PendingApart(s'.admissions) && ServedOk(s'.admissions, s'.served) && s'.rows == s.rows
    ensures Record(m, s.admissions[tx].req) == m
    ensures Answer(m, s.admissions[tx].req) == s.admissions[tx].phase.outcome
  {
    assert TxOk(tx, s.admissions[tx], s.rows, m, s.served);
    PendingApartUpdate(s.admissions, tx, s'.admissions[tx]);
    ServedOkCommit(s.admissions, s.served, tx, s.admissions[tx].phase.outcome, s'.admissions[tx].phase);
  }

  lemma CommitLookupKeeps(s: State, s': State, m: Slots, tx: TxId, delivered: bool)
    requires TxInv(s, m) && CommitLookup(s, s', tx, delivered)
    ensures TxInv(s', m)
  {
    CommitLookupTxs(s, s', m, tx, delivered);
    CommitLookupRest(s, s', m, tx, delivered);
  }

  /** The history grows by an answer of the sequential ledger. */
  lemma {:induction false} HistoryGrows(served: seq<Served>, next: Served)
    requires Legal(served) && next.outcome == Answer(Replay(served), next.req)
    ensures Legal(served + [next]) && Replay(served + [next]) == Record(Replay(served), next.req)
  {
    ReplayAppend(served, next);
    LegalAppend(served, next);
  }

  // ---------------------------------------------------------------- all steps

  ghost predicate SameContent(rows: Table, rows': Table) {
    rows'.Keys == rows.Keys && forall id | id in rows :: rows'[id].content == rows[id].content
  }

  ghost predicate UnseenByAdmission(s: State, s': State) {
    SameContent(s.rows, s'.rows) && s'.admissions == s.admissions && s'.served == s.served
  }

  /** Claims and completions touch no content and no admission. */
  lemma ClaimStepsUnseen(s: State, s': State, step: ClaimStep)
    requires ClaimNext(s, s', step)
    ensures UnseenByAdmission(s, s')
  {
  }

  lemma TaskStepsUnseen(s: State, s': State, step: TaskStep)
    requires TaskNext(s, s', step)
    ensures UnseenByAdmission(s, s')
  {
  }

  lemma UnseenKeeps(s: State, s': State, m: Slots)
    requires TxInv(s, m) && UnseenByAdmission(s, s')
    ensures TxInv(s', m)
  {
    ReflectsKept(m, s.rows, s'.rows);
    forall u | u in s.admissions ensures TxOk(u, s.admissions[u], s'.rows, m, s.served) {
      assert TxOk(u, s.admissions[u], s.rows, m, s.served);
    }
  }

  /** The ledger after a step. */
  ghost function LedgerAfter(s: State, m: Slots, step: AdmitStep): Slots {
    if step.CommitInsertStep? && step.tx in s.admissions then Record(m, s.admissions[step.tx].req) else m
  }

  lemma UncommittedKeeps(s: State, s': State, m: Slots, step: AdmitStep)
    requires TxInv(s, m) && AdmitNext(s, s', step) && !step.CommitInsertStep? && !step.CommitLookupStep?
    ensures TxInv(s', m)
  {
    match step
    case BeginAdmitStep(tx, req) => TxChangeKeeps(s, s', m, tx, Admission(req, Begun));
    case InsertStep(tx) => InsertKeeps(s, s', m, tx);
    case InsertConflictsStep(tx) => InsertConflictsKeeps(s, s', m, tx);
    case LookupStep(tx, found) => LookupKeeps(s, s', m, tx, found);
    case AbortAdmitStep(tx) => AbortAdmitKeeps(s, s', m, tx);
  }

  lemma TxInvNext(s: State, s': State, m: Slots, step: AdmitStep)
    requires TxInv(s, m) && AdmitNext(s, s', step)
    ensures TxInv(s', LedgerAfter(s, m, step))
  {
    if step.CommitInsertStep? {
      CommitInsertKeeps(s, s', m, step.tx, step.delivered);
    } else if step.CommitLookupStep? {
      CommitLookupKeeps(s, s', m, step.tx, step.delivered);
    } else {
      UncommittedKeeps(s, s', m, step);
    }
  }

  lemma CommitInsertHistory(s: State, s': State, tx: TxId, delivered: bool)
    requires AdmitInv(s) && CommitInsert(s, s', tx, delivered)
    ensures Legal(s'.served) && Replay(s'.served) == Record(Replay(s.served), s.admissions[tx].req)
  {
    CommitInsertRest(s, s', Replay(s.served), tx, delivered);
    HistoryGrows(s.served, s'.served[|s.served|]);
  }

  lemma CommitLookupHistory(s: State, s': State, tx: TxId, delivered: bool)
    requires AdmitInv(s) && CommitLookup(s, s', tx, delivered)
    ensures Legal(s'.served) && Replay(s'.served) == Replay(s.served)
  {
    CommitLookupRest(s, s', Replay(s.served), tx, delivered);
    HistoryGrows(s.served, s'.served[|s.served|]);
  }

  lemma LookupKeepsRest(s: State, s': State, tx: TxId, found: Option<EventId>)
    requires Lookup(s, s', tx, found)
    ensures s' == s.(admissions := s'.admissions)
  {
  }

  lemma QuietAdmit(s: State, s': State, step: AdmitStep)
    requires AdmitNext(s, s', step) && !step.CommitInsertStep? && !step.CommitLookupStep?
    ensures s' == s.(admissions := s'.admissions)
  {
    if step.LookupStep? {
      LookupKeepsRest(s, s', step.tx, step.found);
    }
  }

  lemma HistoryNext(s: State, s': State, step: AdmitStep)
    requires AdmitInv(s) && AdmitNext(s, s', step)
    ensures Legal(s'.served) && Replay(s'.served) == LedgerAfter(s, Replay(s.served), step)
  {
    if step.CommitInsertStep? {
      CommitInsertHistory(s, s', step.tx, step.delivered);
    } else if step.CommitLookupStep? {
      CommitLookupHistory(s, s', step.tx, step.delivered);
    } else {
      QuietAdmit(s, s', step);
    }
  }

  lemma AdmitInvNext(s: State, s': State, step: Step)
    requires AdmitInv(s) && NextStep(s, s', step)
    ensures AdmitInv(s')
  {
    match step
    case Admitting(admit) =>
      HistoryNext(s, s', admit);
      TxInvNext(s, s', Replay(s.served), admit);
    case Claiming(claim) =>
      ClaimStepsUnseen(s, s', claim);
      UnseenKeeps(s, s', Replay(s.served));
    case Tasking(task) =>
      TaskStepsUnseen(s, s', task);
      UnseenKeeps(s, s', Replay(s.served));
  }

  // ---------------------------------------------------------------- content comes from requests

  ghost predicate CameFrom(txs: Admissions, id: EventId, c: Content) {
    exists tx :: tx in txs && txs[tx].req == Request(id, c)
  }

  ghost predicate CreatedAsAsked(rows: Table, e: Served) {
    e.outcome.Created? ==> e.req.id in rows && rows[e.req.id].content == e.req.content
  }

  /** A created event has the content of its request, and every row was requested. */
  ghost predicate ContentInv(s: State) {
    && (forall k | 0 <= k < |s.served| :: CreatedAsAsked(s.rows, s.served[k]))
    && (forall id | id in s.rows :: CameFrom(s.admissions, id, s.rows[id].content))
  }

  /** Transactions are never forgotten and never change their request. */
  ghost predicate RequestsKept(txs: Admissions, txs': Admissions) {
    forall tx | tx in txs :: tx in txs' && txs'[tx].req == txs[tx].req
  }

  lemma CameFromKept(txs: Admissions, txs': Admissions, id: EventId, c: Content)
    requires RequestsKept(txs, txs') && CameFrom(txs, id, c)
    ensures CameFrom(txs', id, c)
  {
    var tx :| tx in txs && txs[tx].req == Request(id, c);
    assert tx in txs' && txs'[tx].req == Request(id, c);
  }

  lemma PhaseKeepsRequest(txs: Admissions, tx: TxId, phase: Phase)
    requires tx in txs
    ensures RequestsKept(txs, txs[tx := txs[tx].(phase := phase)])
  {
  }

  lemma LookupKeepsRequest(s: State, s': State, tx: TxId, found: Option<EventId>)
    requires Lookup(s, s', tx, found)
    ensures RequestsKept(s.admissions, s'.admissions)
  {
    PhaseKeepsRequest(s.admissions, tx, s'.admissions[tx].phase);
  }

  lemma AdmitStepsKeepRequests(s: State, s': State, step: AdmitStep)
    requires AdmitNext(s, s', step)
    ensures RequestsKept(s.admissions, s'.admissions)
  {
    match step
    case BeginAdmitStep(tx, req) =>
    case InsertStep(tx) => PhaseKeepsRequest(s.admissions, tx, Inserted);
    case InsertConflictsStep(tx) => PhaseKeepsRequest(s.admissions, tx, Blocked);
    case LookupStep(tx, found) => LookupKeepsRequest(s, s', tx, found);
    case CommitInsertStep(tx, delivered) => PhaseKeepsRequest(s.admissions, tx, s'.admissions[tx].phase);
    case CommitLookupStep(tx, delivered) => PhaseKeepsRequest(s.admissions, tx, s'.admissions[tx].phase);
    case AbortAdmitStep(tx) => PhaseKeepsRequest(s.admissions, tx, Closed(None));
  }

  lemma CommitInsertContent(s: State, s': State, tx: TxId, delivered: bool)
    requires ContentInv(s) && CommitInsert(s, s', tx, delivered) && s.admissions[tx].req.id !in s.rows
    ensures ContentInv(s')
  {
    var req := s.admissions[tx].req;
    assert RequestsKept(s.admissions, s'.admissions);
    forall id | id in s'.rows ensures CameFrom(s'.admissions, id, s'.rows[id].content) {
      if id == req.id {
        assert tx in s'.admissions && s'.admissions[tx].req == Request(id, req.content);
      } else {
        CameFromKept(s.admissions, s'.admissions, id, s.rows[id].content);
      }
    }
    forall k | 0 <= k < |s'.served| ensures CreatedAsAsked(s'.rows, s'.served[k]) {
      if k < |s.served| {
        assert s'.served[k] == s.served[k] && CreatedAsAsked(s.rows, s.served[k]);
      }
    }
  }

  lemma SameContentKeepsContentInv(s: State, s': State)
    requires ContentInv(s) && SameContent(s.rows, s'.rows) && RequestsKept(s.admissions, s'.admissions)
    requires s.served <= s'.served && forall k | |s.served| <= k < |s'.served| :: !s'.served[k].outcome.Created?
    ensures ContentInv(s')
  {
    forall id | id in s'.rows ensures CameFrom(s'.admissions, id, s'.rows[id].content) {
      CameFromKept(s.admissions, s'.admissions, id, s.rows[id].content);
    }
    forall k | 0 <= k < |s'.served| ensures CreatedAsAsked(s'.rows, s'.served[k]) {
      if k < |s.served| {
        assert s'.served[k] == s.served[k] && CreatedAsAsked(s.rows, s.served[k]);
      }
    }
  }

  lemma LookupNeverCreates(s: State, m: Slots, tx: TxId)
    requires TxInv(s, m) && tx in s.admissions && s.admissions[tx].phase.Found?
    ensures !s.admissions[tx].phase.outcome.Created?
  {
    assert TxOk(tx, s.admissions[tx], s.rows, m, s.served);
  }

  lemma CommitLookupContent(s: State, s': State, m: Slots, tx: TxId, delivered: bool)
    requires ContentInv(s) && TxInv(s, m) && CommitLookup(s, s', tx, delivered)
    ensures ContentInv(s')
  {
    LookupNeverCreates(s, m, tx);
    SameContentKeepsContentInv(s, s');
  }

  lemma AdmitContentNext(s: State, s': State, m: Slots, step: AdmitStep)
    requires ContentInv(s) && TxInv(s, m) && AdmitNext(s, s', step)
    ensures ContentInv(s')
  {
    if step.CommitInsertStep? {
      InsertedTxOk(s, m, step.tx);
      CommitInsertContent(s, s', step.tx, step.delivered);
    } else if step.CommitLookupStep? {
      CommitLookupContent(s, s', m, step.tx, step.delivered);
    } else {
      AdmitStepsKeepRequests(s, s', step);
      QuietAdmit(s, s', step);
      SameContentKeepsContentInv(s, s');
    }
  }

  lemma UnseenKeepsContent(s: State, s': State)
    requires ContentInv(s) && UnseenByAdmission(s, s')
    ensures ContentInv(s')
  {
    SameContentKeepsContentInv(s, s');
  }

  lemma ContentInvNext(s: State, s': State, m: Slots, step: Step)
    requires ContentInv(s) && TxInv(s, m) && NextStep(s, s', step)
    ensures ContentInv(s')
  {
    match step
    case Admitting(admit) => AdmitContentNext(s, s', m, admit);
    case Claiming(claim) =>
      ClaimStepsUnseen(s, s', claim);
      UnseenKeepsContent(s, s');
    case Tasking(task) =>
      TaskStepsUnseen(s, s', task);
      UnseenKeepsContent(s, s');
  }

  // ---------------------------------------------------------------- waiting

  /** The insert of `tx` waits for the uncommitted row of `u`. */
  ghost predicate WaitsFor(s: State, tx: TxId, u: TxId) {
    && u != tx && InPhase(s, tx, Begun) && InPhase(s, u, Inserted)
    && (|| ScopeOf(s.admissions[u].req.content) == ScopeOf(s.admissions[tx].req.content)
        || s.admissions[u].req.id == s.admissions[tx].req.id)
  }

  /**
   An insert waits only for a transaction that itself waits for nobody, so waits form no chain and
   no cycle; that transaction can commit at once, and then the wait for it is over.
   */
  lemma WaitsOnCommittable(s: State, tx: TxId) returns (u: TxId, s': State)
    requires InPhase(s, tx, Begun) && MustWait(s, tx)
    ensures WaitsFor(s, tx, u) && forall v :: !WaitsFor(s, u, v)
    ensures CommitInsert(s, s', u, true) && !WaitsFor(s', tx, u)
  {
    u :| u != tx && InPhase(s, u, Inserted)
      && (|| ScopeOf(s.admissions[u].req.content) == ScopeOf(s.admissions[tx].req.content)
          || s.admissions[u].req.id == s.admissions[tx].req.id);
    var req := s.admissions[u].req;
    s' := WithPhase(s, u, ReplyOf(Created(req.id), true)).(
      rows := s.rows[req.id := Row(req.content, NEW_LIFE)],
      leases := s.leases[req.id := []],
      served := s.served + [Served(u, req, Created(req.id))]);
  }
}
