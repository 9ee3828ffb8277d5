/**
 The sequential meaning of admission: a map from `(source, idempotency key)` to the first
 event committed under it.  The concurrent protocol and the one-call-at-a-time store are
 both proved against it.
 */
module Ledger {
  import opened Utf8
  import opened Schema

  datatype Scope = Scope(source: string, key: string)

  datatype Outcome = Created(id: EventId) | Replayed(id: EventId) | Conflict

  datatype Request = Request(id: EventId, content: Content)

  datatype Slot = Slot(id: EventId, fingerprint: seq<Byte>)

  type Slots = map<Scope, Slot>

  function ScopeOf(c: Content): Scope {
    Scope(c.source, c.key)
  }

  /** The first writer wins; later requests replay it or conflict with it. */
  function Answer(m: Slots, req: Request): Outcome {
    var sc := ScopeOf(req.content);
    if sc !in m then Created(req.id)
    else if m[sc].fingerprint == req.content.fingerprint then Replayed(m[sc].id)
    else Conflict
  }

  function Record(m: Slots, req: Request): Slots {
    var sc := ScopeOf(req.content);
    if sc in m then m else m[sc := Slot(req.id, req.content.fingerprint)]
  }

  /** `m` and the table hold the same events. */
  ghost predicate Reflects(m: Slots, rows: Table) {
    && (forall id | id in rows ::
          ScopeOf(rows[id].content) in m && m[ScopeOf(rows[id].content)] == Slot(id, rows[id].content.fingerprint))
    && (forall sc | sc in m :: m[sc].id in rows && ScopeOf(rows[m[sc].id].content) == sc)
  }

  predicate ScopeTaken(rows: Table, sc: Scope) {
    exists id :: id in rows && ScopeOf(rows[id].content) == sc
  }

  /** Row `id` has the source and the idempotency key of `c`. */
  ghost predicate HasKeyOf(rows: Table, id: EventId, c: Content) {
    id in rows && rows[id].content.source == c.source && rows[id].content.key == c.key
  }

  /** The map's slot for a request is the row with its source and key, and there is no other. */
  lemma SlotHasKey(m: Slots, rows: Table, id: EventId, c: Content)
    requires Reflects(m, rows)
    ensures HasKeyOf(rows, id, c) <==> ScopeOf(c) in m && m[ScopeOf(c)].id == id
    ensures HasKeyOf(rows, id, c) ==> m[ScopeOf(c)].fingerprint == rows[id].content.fingerprint
  {
    if ScopeOf(c) in m && m[ScopeOf(c)].id == id {
      assert ScopeOf(rows[id].content) == ScopeOf(c);
    }
  }

  lemma NoSlotNoKey(m: Slots, rows: Table, c: Content)
    requires Reflects(m, rows)
    ensures ScopeOf(c) in m <==> exists id :: HasKeyOf(rows, id, c)
  {
    if ScopeOf(c) in m {
      SlotHasKey(m, rows, m[ScopeOf(c)].id, c);
    }
    if id :| HasKeyOf(rows, id, c) {
      SlotHasKey(m, rows, id, c);
    }
  }

  lemma ReflectsTaken(m: Slots, rows: Table, sc: Scope)
    requires Reflects(m, rows)
    ensures ScopeTaken(rows, sc) <==> sc in m
  {
    if sc in m {
      assert m[sc].id in rows;
    }
  }

  /** A table that reflects a map has one row per scope. */
  lemma OneRowPerScope(m: Slots, rows: Table, a: EventId, b: EventId)
    requires Reflects(m, rows) && a in rows && b in rows
    requires ScopeOf(rows[a].content) == ScopeOf(rows[b].content)
    ensures a == b
  {
  }

  lemma RecordReflects(m: Slots, rows: Table, req: Request)
    requires Reflects(m, rows) && ScopeOf(req.content) !in m && req.id !in rows
    ensures Reflects(Record(m, req), rows[req.id := Row(req.content, NEW_LIFE)])
  {
  }

  lemma ReflectsKept(m: Slots, rows: Table, rows': Table)
    requires Reflects(m, rows) && rows.Keys == rows'.Keys
    requires forall id | id in rows :: rows'[id].content == rows[id].content
    ensures Reflects(m, rows')
  {
  }

  // ---------------------------------------------------------------- histories of answered requests

  type TxId = nat

  datatype Served = Served(tx: TxId, req: Request, outcome: Outcome)

  /** The map after serving the requests in order, from nothing. */
  function Replay(served: seq<Served>): Slots {
    if served == [] then map[] else Record(Replay(served[..|served| - 1]), served[|served| - 1].req)
  }

  /** Every answer is the one the sequential map gives at its place in the order. */
  ghost predicate Legal(served: seq<Served>) {
    forall k | 0 <= k < |served| :: served[k].outcome == Answer(Replay(served[..k]), served[k].req)
  }

  lemma {:induction false} ReplayAppend(served: seq<Served>, next: Served)
    ensures Replay(served + [next]) == Record(Replay(served), next.req)
  {
    assert (served + [next])[..|served|] == served;
  }

  lemma {:induction false} LegalAppend(served: seq<Served>, next: Served)
    requires Legal(served) && next.outcome == Answer(Replay(served), next.req)
    ensures Legal(served + [next])
  {
    var all := served + [next];
    forall k | 0 <= k < |all| ensures all[k].outcome == Answer(Replay(all[..k]), all[k].req) {
      assert all[..k] == served[..k];
      assert served[..|served|] == served;
    }
  }

  lemma {:induction false} ReplayKeeps(served: seq<Served>, k: nat, sc: Scope)
    requires k <= |served| && sc in Replay(served[..k])
    ensures sc in Replay(served) && Replay(served)[sc] == Replay(served[..k])[sc]
    decreases |served|
  {
    if k < |served| {
      var init := served[..|served| - 1];
      assert init[..k] == served[..k];
      ReplayKeeps(init, k, sc);
    } else {
      assert served[..k] == served;
    }
  }

  /** In a legal history, all `Created` and `Replayed` answers of one scope name one event. */
  lemma OneIdPerScope(served: seq<Served>, i: nat, j: nat)
    requires Legal(served) && i < |served| && j < |served|
    requires ScopeOf(served[i].req.content) == ScopeOf(served[j].req.content)
    requires !served[i].outcome.Conflict? && !served[j].outcome.Conflict?
    ensures served[i].outcome.id == served[j].outcome.id
  {
    AnswerNamesFinalSlot(served, i);
    AnswerNamesFinalSlot(served, j);
  }

  lemma {:induction false} AnswerNamesFinalSlot(served: seq<Served>, k: nat)
    requires Legal(served) && k < |served| && !served[k].outcome.Conflict?
    ensures ScopeOf(served[k].req.content) in Replay(served)
    ensures Replay(served)[ScopeOf(served[k].req.content)].id == served[k].outcome.id
  {
    AnswerThenRecord(Replay(served[..k]), served[k].req);
    ServedThenRecorded(served, k);
    ReplayKeeps(served, k + 1, ScopeOf(served[k].req.content));
  }

  lemma AnswerThenRecord(m: Slots, req: Request)
    ensures ScopeOf(req.content) in Record(m, req)
    ensures !Answer(m, req).Conflict? ==> Record(m, req)[ScopeOf(req.content)].id == Answer(m, req).id
  {
  }

  lemma ServedThenRecorded(served: seq<Served>, k: nat)
    requires k < |served|
    ensures Replay(served[..k + 1]) == Record(Replay(served[..k]), served[k].req)
  {
    assert served[..k + 1] == served[..k] + [served[k]];
    ReplayAppend(served[..k], served[k]);
  }

  /** In a legal history, at most one request of a scope is answered `Created`. */
  lemma OneCreatorPerScope(served: seq<Served>, i: nat, j: nat)
    requires Legal(served) && i < |served| && j < |served|
    requires ScopeOf(served[i].req.content) == ScopeOf(served[j].req.content)
    requires served[i].outcome.Created? && served[j].outcome.Created?
    ensures i == j
  {
    if i < j {
      CreatedOnce(served, i, j);
    } else if j < i {
      CreatedOnce(served, j, i);
    }
  }

  lemma CreatedOnce(served: seq<Served>, i: nat, j: nat)
    requires Legal(served) && i < j < |served|
    requires ScopeOf(served[i].req.content) == ScopeOf(served[j].req.content)
    requires served[i].outcome.Created?
    ensures !served[j].outcome.Created?
  {
    AnswerThenRecord(Replay(served[..i]), served[i].req);
    ServedThenRecorded(served, i);
    assert served[..j][..i + 1] == served[..i + 1];
    ReplayKeeps(served[..j], i + 1, ScopeOf(served[i].req.content));
  }
}
