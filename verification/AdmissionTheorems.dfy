/** What callers of `admit` can rely on, over every run. */
module AdmissionTheorems {
  import opened Utf8
  import opened EventModel
  import opened Fingerprint
  import opened Schema
  import opened Requests
  import opened Ledger
  import opened Protocol
  import opened AdmissionProofs
  import opened Runs

  ghost predicate Received(s: State, tx: TxId, outcome: Outcome) {
    tx in s.admissions && s.admissions[tx].phase == Closed(Some(outcome))
  }

  /**
   Admission linearizes: the committed transactions, in commit order, are a legal history of
   the first-writer-wins map; the table is what that history leaves; every reply is in it.
   */
  lemma Linearizable(states: seq<State>, i: nat)
    requires Run(states) && i < |states|
    ensures Legal(states[i].served)
    ensures Reflects(Replay(states[i].served), states[i].rows)
    ensures ServedOk(states[i].admissions, states[i].served)
    ensures forall tx, outcome | Received(states[i], tx, outcome) ::
              IsServed(states[i].served, Served(tx, states[i].admissions[tx].req, outcome))
  {
    var s := states[i];
    AdmitInvOnRun(states, i);
    forall tx, outcome | Received(s, tx, outcome)
      ensures IsServed(s.served, Served(tx, s.admissions[tx].req, outcome))
    {
      assert TxOk(tx, s.admissions[tx], s.rows, Replay(s.served), s.served);
    }
  }

  /** The order respects real time: a transaction that began after another committed comes later. */
  lemma CommitOrderIsRealTime(states: seq<State>, i: nat, j: nat, k: nat, l: nat)
    requires Run(states) && i <= j < |states|
    requires k < |states[i].served| && l < |states[j].served|
    requires states[j].served[l].tx !in states[i].admissions
    ensures k < |states[j].served| && states[j].served[k] == states[i].served[k]
    ensures k < l
  {
    Linearizable(states, i);
    GrowsOnRun(states, i, j);
    assert states[i].served <= states[j].served;
    assert forall x | 0 <= x < |states[i].served| :: states[j].served[x] == states[i].served[x];
  }

  /** There is at most one committed row for a source and a key. */
  lemma OneRowPerScopeOnRun(states: seq<State>, i: nat, a: EventId, b: EventId)
    requires Run(states) && i < |states| && a in states[i].rows && b in states[i].rows
    requires states[i].rows[a].content.source == states[i].rows[b].content.source
    requires states[i].rows[a].content.key == states[i].rows[b].content.key
    ensures a == b
  {
    Linearizable(states, i);
    OneRowPerScope(Replay(states[i].served), states[i].rows, a, b);
  }

  /** Callers with one source and key agree: one event, and at most one of them created it. */
  lemma RepliesAgree(states: seq<State>, i: nat, t: TxId, u: TxId, o: Outcome, p: Outcome)
    requires Run(states) && i < |states| && Received(states[i], t, o) && Received(states[i], u, p)
    requires states[i].admissions[t].req.content.source == states[i].admissions[u].req.content.source
    requires states[i].admissions[t].req.content.key == states[i].admissions[u].req.content.key
    ensures !o.Conflict? && !p.Conflict? ==> o.id == p.id
    ensures o.Created? && p.Created? ==> t == u
  {
    var s := states[i];
    Linearizable(states, i);
    var j :| 0 <= j < |s.served| && s.served[j] == Served(t, s.admissions[t].req, o);
    var k :| 0 <= k < |s.served| && s.served[k] == Served(u, s.admissions[u].req, p);
    if !o.Conflict? && !p.Conflict? {
      OneIdPerScope(s.served, j, k);
    }
    if o.Created? && p.Created? {
      OneCreatorPerScope(s.served, j, k);
    }
  }

  /** `admit` and `claim` never answer `Inconsistent`: lookups find rows, stored labels and counters parse. */
  lemma NeverInconsistent(states: seq<State>, i: nat)
    requires Run(states) && i < |states|
    ensures forall tx | tx in states[i].admissions :: states[i].admissions[tx].phase != Broken
    ensures forall id | id in states[i].rows ::
              var row := states[i].rows[id];
              && ValidateLabel(SourceField, row.content.source, MAX_SOURCE_CHARS).Success?
              && ValidateLabel(EventTypeField, row.content.eventType, MAX_EVENT_TYPE_CHARS).Success?
              && 0 <= row.life.attempts <= MAX_ATTEMPTS
  {
    var s := states[i];
    AdmitInvOnRun(states, i);
    forall tx | tx in s.admissions ensures s.admissions[tx].phase != Broken {
      assert TxOk(tx, s.admissions[tx], s.rows, Replay(s.served), s.served);
    }
    forall id | id in s.rows ensures
      var row := s.rows[id];
      && ValidateLabel(SourceField, row.content.source, MAX_SOURCE_CHARS).Success?
      && ValidateLabel(EventTypeField, row.content.eventType, MAX_EVENT_TYPE_CHARS).Success?
      && 0 <= row.life.attempts <= MAX_ATTEMPTS
    {
      RowOkOnRun(states, i, id);
      LabelAccepted(SourceField, s.rows[id].content.source, MAX_SOURCE_CHARS);
      LabelAccepted(EventTypeField, s.rows[id].content.eventType, MAX_EVENT_TYPE_CHARS);
    }
  }

  // ---------------------------------------------------------------- replay or conflict, end to end

  ghost predicate AllFingerprinted(hash: Hash, s: State) {
    forall tx | tx in s.admissions :: Fingerprinted(hash, s.admissions[tx].req.content)
  }

  lemma PlaceInHistory(s: State, tx: TxId, outcome: Outcome) returns (k: nat)
    requires AdmitInv(s) && Received(s, tx, outcome)
    ensures k < |s.served| && s.served[k] == Served(tx, s.admissions[tx].req, outcome)
  {
    assert TxOk(tx, s.admissions[tx], s.rows, Replay(s.served), s.served);
    k :| 0 <= k < |s.served| && s.served[k] == Served(tx, s.admissions[tx].req, outcome);
  }

  lemma SlotOfReply(s: State, tx: TxId, outcome: Outcome) returns (id: EventId)
    requires AdmitInv(s) && Received(s, tx, outcome)
    ensures id in s.rows && ScopeOf(s.rows[id].content) == ScopeOf(s.admissions[tx].req.content)
    ensures outcome.Created? || outcome.Replayed? ==> outcome.id == id
    ensures outcome.Replayed? ==> s.rows[id].content.fingerprint == s.admissions[tx].req.content.fingerprint
    ensures outcome.Conflict? ==> s.rows[id].content.fingerprint != s.admissions[tx].req.content.fingerprint
  {
    var k := PlaceInHistory(s, tx, outcome);
    id := FinalSlot(s.served, k, s.rows);
  }

  /** The slot a served request was answered from is still there, with the fingerprint it had. */
  lemma FinalSlot(served: seq<Served>, k: nat, rows: Table) returns (id: EventId)
    requires Legal(served) && k < |served| && Reflects(Replay(served), rows)
    ensures id in rows && ScopeOf(rows[id].content) == ScopeOf(served[k].req.content)
    ensures served[k].outcome.Created? || served[k].outcome.Replayed? ==> served[k].outcome.id == id
    ensures served[k].outcome.Replayed? ==> rows[id].content.fingerprint == served[k].req.content.fingerprint
    ensures served[k].outcome.Conflict? ==> rows[id].content.fingerprint != served[k].req.content.fingerprint
  {
    var sc, before := ScopeOf(served[k].req.content), Replay(served[..k]);
    ServedThenRecorded(served, k);
    AnswerThenRecord(before, served[k].req);
    ReplayKeeps(served, k + 1, sc);
    assert served[k].outcome == Answer(before, served[k].req);
    id := Replay(served)[sc].id;
    assert Replay(served)[sc] == Slot(id, rows[id].content.fingerprint);
  }

  lemma RowsFingerprinted(hash: Hash, s: State, id: EventId)
    requires ContentInv(s) && AllFingerprinted(hash, s) && id in s.rows
    ensures Fingerprinted(hash, s.rows[id].content)
  {
    assert CameFrom(s.admissions, id, s.rows[id].content);
    var tx :| tx in s.admissions && s.admissions[tx].req == Request(id, s.rows[id].content);
    assert Fingerprinted(hash, s.admissions[tx].req.content);
  }

  /**
   In every run, an answered request names or conflicts with the one event of its source and key: it
   created that event with its own content, or it replays it exactly when the two requests are
   the same up to key order, and conflicts otherwise.  Only the replay needs the hash to be free
   of a collision on these two inputs.
   */
  lemma ReplyDecidesSameness(hash: Hash, states: seq<State>, i: nat, tx: TxId, outcome: Outcome) returns (id: EventId)
    requires Run(states) && i < |states| && Received(states[i], tx, outcome)
    requires AllFingerprinted(hash, states[i])
    ensures HasKeyOf(states[i].rows, id, states[i].admissions[tx].req.content)
    ensures outcome.Created? ==> outcome.id == id && states[i].rows[id].content == states[i].admissions[tx].req.content
    ensures outcome.Replayed? ==> outcome.id == id
    ensures outcome.Conflict? ==> !SameContentRequest(states[i].rows[id].content, states[i].admissions[tx].req.content)
    ensures NoContentCollision(hash, states[i].rows[id].content, states[i].admissions[tx].req.content)
              && !outcome.Created? ==>
              (outcome.Replayed? <==>
                 SameContentRequest(states[i].rows[id].content, states[i].admissions[tx].req.content))
  {
    var s := states[i];
    AdmitInvOnRun(states, i);
    id := SlotOfReply(s, tx, outcome);
    RowsFingerprinted(hash, s, id);
    assert Fingerprinted(hash, s.admissions[tx].req.content);
    SameFingerprint(hash, s.rows[id].content, s.admissions[tx].req.content);
    if outcome.Created? {
      CreatedContent(s, tx, outcome);
    }
  }

  lemma CreatedContent(s: State, tx: TxId, outcome: Outcome)
    requires AdmitInv(s) && ContentInv(s) && Received(s, tx, outcome) && outcome.Created?
    ensures outcome.id == s.admissions[tx].req.id
    ensures outcome.id in s.rows && s.rows[outcome.id].content == s.admissions[tx].req.content
  {
    var k := PlaceInHistory(s, tx, outcome);
    CreatedOwnId(s.served, k);
    assert CreatedAsAsked(s.rows, s.served[k]);
  }

  lemma CreatedOwnId(served: seq<Served>, k: nat)
    requires Legal(served) && k < |served| && served[k].outcome.Created?
    ensures served[k].outcome.id == served[k].req.id
  {
    assert served[k].outcome == Answer(Replay(served[..k]), served[k].req);
  }
}
