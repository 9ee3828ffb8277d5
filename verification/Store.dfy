/**
 The store's operations as one caller sees them, each run to its end: `admit`, `claim` and
 `complete` on the shared table.  A call may find the database down, or lose its reply after
 the statement committed.
 */
module StoreModel {
  import opened Utf8
  import opened EventModel
  import opened Schema
  import opened Ledger

  datatype StoreError = Unavailable | Database | Inconsistent

  /** How far a call gets: to the server and back, to the server only, or nowhere. */
  datatype Link = Up | ReplyLost | Down

  datatype ClaimedEvent = ClaimedEvent(event: Event, acceptedAt: int, attempt: int, reclaimed: bool)

  /** What a claim returns for a row it found as `before`. */
  function ClaimedFrom(id: EventId, before: Row): ClaimedEvent {
    ClaimedEvent(
      Event(id, before.content.source, before.content.eventType, before.content.payload),
      if before.content.acceptedAt < 0 then 0 else before.content.acceptedAt,
      before.life.attempts + 1,
      AsDbStr(before.life.status) == AsDbStr(Processing))
  }

  /** The entry shows the row's immutable columns as they are, and what this claim made of the others. */
  ghost predicate Reports(c: ClaimedEvent, before: Row, after: Row) {
    && c.event.source == before.content.source
    && c.event.eventType == before.content.eventType
    && c.event.payload == before.content.payload
    && (before.content.acceptedAt >= 0 ==> c.acceptedAt == before.content.acceptedAt)
    && (before.content.acceptedAt < 0 ==> c.acceptedAt == 0)
    && c.attempt == after.life.attempts
    && (c.reclaimed <==> before.life.status == Processing)
  }

  // ---------------------------------------------------------------- the oldest claimable rows

  /** `batch` holds the oldest claimable rows: all of them, or `limit` with every other one younger. */
  ghost predicate TakesOldest(rows: Table, now: int, limit: nat, batch: seq<EventId>) {
    && OldestFirst(rows, batch)
    && |batch| <= limit
    && (forall id | id in batch :: Claimable(rows[id], now))
    && (forall id | id in rows && Claimable(rows[id], now) && id !in batch ::
          |batch| == limit && forall b | b in batch :: Older(rows, b, id))
  }

  predicate IsOldest(rows: Table, ids: set<EventId>, id: EventId) {
    ids <= rows.Keys && id in ids && forall x | x in ids && x != id :: Older(rows, id, x)
  }

  lemma {:induction false} OldestExists(rows: Table, ids: set<EventId>)
    requires ids != {} && ids <= rows.Keys
    ensures exists id :: IsOldest(rows, ids, id)
    decreases |ids|
  {
    var a :| a in ids;
    if ids == {a} {
      assert IsOldest(rows, ids, a);
    } else {
      OldestExists(rows, ids - {a});
      var b :| IsOldest(rows, ids - {a}, b);
      OldestOfTwo(rows, ids, a, b);
    }
  }

  lemma OldestOfTwo(rows: Table, ids: set<EventId>, a: EventId, b: EventId)
    requires ids <= rows.Keys && a in ids && IsOldest(rows, ids - {a}, b)
    ensures IsOldest(rows, ids, if Older(rows, a, b) then a else b)
  {
    var id := if Older(rows, a, b) then a else b;
    forall x | x in ids && x != id ensures Older(rows, id, x) {
      assert x == a || x in ids - {a};
    }
  }

  lemma NotAmongOlder(rows: Table, ids: seq<EventId>, n: nat)
    requires OldestFirst(rows, ids) && n < |ids|
    ensures ids[n] !in ids[..n]
  {
    assert forall p | 0 <= p < n :: Older(rows, ids[p], ids[n]);
  }

  /** What is claimable but not among the first `n` taken is not older than the next one taken. */
  lemma BatchNext(rows: Table, now: int, limit: nat, batch: seq<EventId>, n: nat, id: EventId)
    requires TakesOldest(rows, now, limit, batch) && n < |batch|
    requires id in rows && Claimable(rows[id], now) && id !in batch[..n]
    ensures id == batch[n] || Older(rows, batch[n], id)
  {
    if id in batch {
      var p :| 0 <= p < |batch| && batch[p] == id;
      assert p >= n;
    } else {
      assert batch[n] in batch;
    }
  }

  lemma QueueNext(rows: Table, now: int, queue: seq<EventId>, n: nat, id: EventId)
    requires IsCandidates(rows, now, queue) && n <= |queue|
    requires id in rows && Claimable(rows[id], now) && id !in queue[..n]
    ensures n < |queue| && (id == queue[n] || Older(rows, queue[n], id))
  {
    assert id in queue;
    var p :| 0 <= p < |queue| && queue[p] == id;
    assert p >= n;
  }

  lemma NextOldest(rows: Table, now: int, limit: nat, batch: seq<EventId>, queue: seq<EventId>, n: nat)
    requires TakesOldest(rows, now, limit, batch) && IsCandidates(rows, now, queue)
    requires n < |batch| && n <= |queue| && batch[..n] == queue[..n]
    ensures n < |queue| && batch[n] == queue[n]
  {
    assert batch[n] in batch;
    NotAmongOlder(rows, batch, n);
    QueueNext(rows, now, queue, n, batch[n]);
    assert queue[n] in queue;
    NotAmongOlder(rows, queue, n);
    BatchNext(rows, now, limit, batch, n, queue[n]);
  }

  lemma {:induction false} OldestAgree(
    rows: Table, now: int, limit: nat, batch: seq<EventId>, queue: seq<EventId>, n: nat)
    requires TakesOldest(rows, now, limit, batch) && IsCandidates(rows, now, queue) && n <= |batch|
    ensures n <= |queue| && batch[..n] == queue[..n]
  {
    if n > 0 {
      OldestAgree(rows, now, limit, batch, queue, n - 1);
      NextOldest(rows, now, limit, batch, queue, n - 1);
      assert batch[..n] == batch[..n - 1] + [batch[n - 1]];
      assert queue[..n] == queue[..n - 1] + [queue[n - 1]];
    }
  }

  /** Described by the property or by the ordered scan, the batch is the same. */
  lemma OldestIsPrefix(rows: Table, now: int, limit: nat, batch: seq<EventId>, queue: seq<EventId>)
    requires TakesOldest(rows, now, limit, batch) && IsCandidates(rows, now, queue)
    ensures batch == queue[..if limit < |queue| then limit else |queue|]
  {
    OldestAgree(rows, now, limit, batch, queue, |batch|);
    assert batch[..|batch|] == batch;
    if |batch| < |queue| {
      assert queue[|batch|] in queue;
      NotAmongOlder(rows, queue, |batch|);
    }
  }

  /** The reply to a claim describes the rows of the batch, in order. */
  function Describe(rows: Table, batch: seq<EventId>): (claimed: seq<ClaimedEvent>)
    requires forall id | id in batch :: id in rows
    ensures |claimed| == |batch|
    ensures forall k | 0 <= k < |batch| :: claimed[k] == ClaimedFrom(batch[k], rows[batch[k]])
  {
    seq(|batch|, k requires 0 <= k < |batch| => ClaimedFrom(batch[k], rows[batch[k]]))
  }

  /** Every entry of the reply shows its row. */
  ghost predicate ReportsAll(claims: seq<ClaimedEvent>, batch: seq<EventId>, before: Table, after: Table) {
    forall c | c in claims ::
      && c.event.id in batch && c.event.id in before && c.event.id in after
      && Reports(c, before[c.event.id], after[c.event.id])
  }

  lemma ClaimedFromReports(id: EventId, before: Row, owner: WorkerId, now: int, leaseMs: int)
    ensures ClaimedFrom(id, before).event.id == id
    ensures Reports(ClaimedFrom(id, before), before, Claimed(before, owner, now, leaseMs))
  {
    StatusRoundTrip(before.life.status);
  }

  lemma DescriptionReports(rows: Table, batch: seq<EventId>, owner: WorkerId, now: int, leaseMs: int)
    requires forall id | id in batch :: id in rows
    ensures ReportsAll(Describe(rows, batch), batch, rows, ClaimRows(rows, IdSet(batch), owner, now, leaseMs))
  {
    var claims := Describe(rows, batch);
    forall c | c in claims
      ensures c.event.id in batch
      ensures Reports(c, rows[c.event.id], ClaimRows(rows, IdSet(batch), owner, now, leaseMs)[c.event.id])
    {
      var k :| 0 <= k < |claims| && claims[k] == c;
      ClaimedFromReports(batch[k], rows[batch[k]], owner, now, leaseMs);
    }
  }

  /** The returned columns of a claimed row parse back. */
  predicate Parses(before: Row) {
    && ValidateLabel(SourceField, before.content.source, MAX_SOURCE_CHARS).Success?
    && ValidateLabel(EventTypeField, before.content.eventType, MAX_EVENT_TYPE_CHARS).Success?
    && before.life.attempts + 1 >= 0
  }

  predicate AllParse(rows: Table, batch: seq<EventId>) {
    forall id | id in batch && id in rows :: Parses(rows[id])
  }

  /** Exactly the rows of the batch are given to `owner`, from `now` on for `leaseMs` milliseconds. */
  ghost predicate LeasedTo(
    before: Table, after: Table, batch: seq<EventId>, owner: WorkerId, now: int, leaseMs: int)
  {
    && after.Keys == before.Keys
    && (forall id | id in before && id !in batch :: after[id] == before[id])
    && (forall id | id in before && id in batch ::
          && after[id].content == before[id].content
          && after[id].life == Lifecycle(
               Processing, Some(owner), Some(now), Some(now + leaseMs * 1000),
               before[id].life.processedAt, before[id].life.attempts + 1))
  }

  lemma ClaimLeases(rows: Table, batch: seq<EventId>, owner: WorkerId, now: int, leaseMs: int)
    ensures LeasedTo(rows, ClaimRows(rows, IdSet(batch), owner, now, leaseMs), batch, owner, now, leaseMs)
  {
  }

  /** The columns parse exactly if both labels are valid and the counter is not negative. */
  lemma ParsesExactly(before: Row)
    ensures Parses(before) <==>
              && ValidLabel(before.content.source, 100) && ValidLabel(before.content.eventType, 150)
              && before.life.attempts >= -1
  {
    LabelAccepted(SourceField, before.content.source, 100);
    LabelAccepted(EventTypeField, before.content.eventType, 150);
  }

  /** A claim fails on a counter exactly if some counter would leave the 32-bit range. */
  lemma CounterFullExactly(rows: Table, batch: seq<EventId>, owner: WorkerId, now: int, leaseMs: int)
    requires forall id | id in batch :: id in rows
    ensures SomeCounterFull(rows, batch) <==>
              exists id | id in batch ::
                ClaimRows(rows, IdSet(batch), owner, now, leaseMs)[id].life.attempts > 2_147_483_647
  {
    var after := ClaimRows(rows, IdSet(batch), owner, now, leaseMs);
    forall id | id in batch ensures after[id].life.attempts == rows[id].life.attempts + 1 {
    }
  }

  predicate SomeCounterFull(rows: Table, batch: seq<EventId>) {
    exists id | id in batch :: id in rows && rows[id].life.attempts >= MAX_ATTEMPTS
  }

  // ---------------------------------------------------------------- who claimed and completed what

  /** The row's columns, given who claimed the event last and whether it was completed. */
  ghost predicate OwnerOk(row: Row, id: EventId, lastOwner: map<EventId, WorkerId>, completed: set<EventId>) {
    && (row.life.status == Pending <==> id !in lastOwner)
    && (row.life.status == Processed <==> id in completed)
    && (row.life.status == Processing ==> id in lastOwner && row.life.owner == Some(lastOwner[id]))
  }

  ghost predicate OwnersOk(rows: Table, lastOwner: map<EventId, WorkerId>, completed: set<EventId>) {
    && lastOwner.Keys <= rows.Keys && completed <= rows.Keys
    && forall id | id in rows :: OwnerOk(rows[id], id, lastOwner, completed)
  }

  /** The latest claim is the worker's, and nobody has completed the event. */
  ghost predicate HoldsClaim(lastOwner: map<EventId, WorkerId>, completed: set<EventId>, id: EventId, owner: WorkerId) {
    id in lastOwner && lastOwner[id] == owner && id !in completed
  }

  lemma HolderOwns(
    rows: Table, lastOwner: map<EventId, WorkerId>, completed: set<EventId>, id: EventId, owner: WorkerId)
    requires OwnersOk(rows, lastOwner, completed)
    ensures id in rows && Owns(rows[id], owner) <==> HoldsClaim(lastOwner, completed, id, owner)
  {
    if id in rows {
      assert OwnerOk(rows[id], id, lastOwner, completed);
    }
  }

  function Reassigned(lastOwner: map<EventId, WorkerId>, ids: set<EventId>, owner: WorkerId): map<EventId, WorkerId> {
    map id | id in lastOwner.Keys + ids :: if id in ids then owner else lastOwner[id]
  }

  lemma InsertKeepsOwners(
    rows: Table, lastOwner: map<EventId, WorkerId>, completed: set<EventId>, id: EventId, c: Content)
    requires OwnersOk(rows, lastOwner, completed) && id !in rows
    ensures OwnersOk(rows[id := Row(c, NEW_LIFE)], lastOwner, completed)
  {
  }

  lemma ClaimKeepsOwners(
    rows: Table, lastOwner: map<EventId, WorkerId>, completed: set<EventId>, ids: set<EventId>,
    owner: WorkerId, now: int, leaseMs: int)
    requires OwnersOk(rows, lastOwner, completed) && ids <= rows.Keys
    requires forall id | id in ids :: Claimable(rows[id], now)
    ensures OwnersOk(ClaimRows(rows, ids, owner, now, leaseMs), Reassigned(lastOwner, ids, owner), completed)
  {
    forall id | id in rows
      ensures OwnerOk(ClaimRows(rows, ids, owner, now, leaseMs)[id], id, Reassigned(lastOwner, ids, owner), completed)
    {
      assert OwnerOk(rows[id], id, lastOwner, completed);
    }
  }

  lemma CompletionKeepsOwners(
    rows: Table, lastOwner: map<EventId, WorkerId>, completed: set<EventId>, id: EventId, owner: WorkerId, now: int)
    requires OwnersOk(rows, lastOwner, completed) && id in rows && Owns(rows[id], owner)
    ensures OwnersOk(rows[id := Completed(rows[id], now)], lastOwner, completed + {id})
  {
    assert OwnerOk(rows[id], id, lastOwner, completed);
  }

  // ---------------------------------------------------------------- the store

  /** The table, with its history: the first event of each scope, the last claims, the completions. */
  datatype Contents = Contents(rows: Table, slots: Slots, lastOwner: map<EventId, WorkerId>, completed: set<EventId>)

  ghost predicate Sound(d: Contents) {
    Reflects(d.slots, d.rows) && OwnersOk(d.rows, d.lastOwner, d.completed)
  }

  lemma AdmitKeepsSound(d: Contents, req: Request)
    requires Sound(d) && ScopeOf(req.content) !in d.slots && req.id !in d.rows
    ensures Sound(d.(rows := d.rows[req.id := Row(req.content, NEW_LIFE)], slots := Record(d.slots, req)))
  {
    RecordReflects(d.slots, d.rows, req);
    InsertKeepsOwners(d.rows, d.lastOwner, d.completed, req.id, req.content);
  }

  lemma ClaimKeepsSound(d: Contents, ids: set<EventId>, owner: WorkerId, now: int, leaseMs: int)
    requires Sound(d) && ids <= d.rows.Keys && forall id | id in ids :: Claimable(d.rows[id], now)
    ensures Sound(d.(
                    rows := ClaimRows(d.rows, ids, owner, now, leaseMs),
                    lastOwner := Reassigned(d.lastOwner, ids, owner)))
  {
    ReflectsKept(d.slots, d.rows, ClaimRows(d.rows, ids, owner, now, leaseMs));
    ClaimKeepsOwners(d.rows, d.lastOwner, d.completed, ids, owner, now, leaseMs);
  }

  lemma CompletionKeepsSound(d: Contents, id: EventId, owner: WorkerId, now: int)
    requires Sound(d) && id in d.rows && Owns(d.rows[id], owner)
    ensures Sound(d.(rows := d.rows[id := Completed(d.rows[id], now)], completed := d.completed + {id}))
  {
    ReflectsKept(d.slots, d.rows, d.rows[id := Completed(d.rows[id], now)]);
    CompletionKeepsOwners(d.rows, d.lastOwner, d.completed, id, owner, now);
  }

  lemma KeysMatchSlots(slots: Slots, rows: Table, c: Content)
    requires Reflects(slots, rows)
    ensures ScopeOf(c) in slots <==> exists id :: HasKeyOf(rows, id, c)
    ensures forall id | HasKeyOf(rows, id, c) ::
              && ScopeOf(c) in slots
              && slots[ScopeOf(c)] == Slot(id, rows[id].content.fingerprint)
  {
    NoSlotNoKey(slots, rows, c);
    forall id | HasKeyOf(rows, id, c)
      ensures ScopeOf(c) in slots && slots[ScopeOf(c)] == Slot(id, rows[id].content.fingerprint)
    {
      SlotHasKey(slots, rows, id, c);
    }
  }

  class Store {
    var rows: Table
    ghost var slots: Slots
    ghost var lastOwner: map<EventId, WorkerId>
    ghost var completed: set<EventId>

    ghost function View(): Contents
      reads this
    {
      Contents(rows, slots, lastOwner, completed)
    }

    ghost predicate Valid()
      reads this
    {
      Sound(View())
    }

    constructor ()
      ensures Valid() && View() == Contents(map[], map[], map[], {})
    {
      rows := map[];
      slots, lastOwner, completed := map[], map[], {};
    }

    /** Other processes have used the table, and leave it so. */
    method OthersLeave(d: Contents)
      requires Sound(d)
      modifies this
      ensures Valid() && View() == d
    {
      rows := d.rows;
      slots, lastOwner, completed := d.slots, d.lastOwner, d.completed;
    }

    method Insert(req: Request)
      modifies this
      ensures View() == old(View()).(
                          rows := old(rows)[req.id := Row(req.content, NEW_LIFE)], slots := Record(old(slots), req))
    {
      slots := Record(slots, req);
      rows := rows[req.id := Row(req.content, NEW_LIFE)];
    }

    method UpdateClaimed(ids: set<EventId>, owner: WorkerId, now: int, leaseMs: int)
      modifies this
      ensures View() == old(View()).(
                          rows := ClaimRows(old(rows), ids, owner, now, leaseMs),
                          lastOwner := Reassigned(old(lastOwner), ids, owner))
    {
      lastOwner := Reassigned(lastOwner, ids, owner);
      rows := ClaimRows(rows, ids, owner, now, leaseMs);
    }

    method UpdateCompleted(id: EventId, now: int)
      requires id in rows
      modifies this
      ensures View() == old(View()).(
                          rows := old(rows)[id := Completed(old(rows)[id], now)], completed := old(completed) + {id})
    {
      completed := completed + {id};
      rows := rows[id := Completed(rows[id], now)];
    }

    /**
     Inserts, or looks up the row that was first.  The answer is that of the sequential ledger: the
     event is created if no row has the request's source and key, and otherwise that row decides.
     A reply that is lost leaves the same table as one that arrives.
     */
    method Admit(req: Request, link: Link) returns (r: Result<Outcome, StoreError>)
      requires Valid()
      modifies this
      ensures Valid() && lastOwner == old(lastOwner) && completed == old(completed)
      ensures r.Success? ==> r.value == Answer(old(slots), req)
      ensures r.Success? && r.value.Created? <==>
                link == Up && req.id !in old(rows) && forall id :: !HasKeyOf(old(rows), id, req.content)
      ensures r.Success? && r.value.Created? ==> r.value.id == req.id
      ensures forall id | HasKeyOf(old(rows), id, req.content) && link == Up ::
                r == Success(if old(rows)[id].content.fingerprint == req.content.fingerprint
                             then Replayed(id) else Conflict)
      ensures r.Failure? ==> r.error == if link == Up then Database else Unavailable
      ensures r.Success? <==> link == Up && (ScopeOf(req.content) in old(slots) || req.id !in old(rows))
      ensures link == Down || (ScopeOf(req.content) !in old(slots) && req.id in old(rows)) ==>
                slots == old(slots) && rows == old(rows)
      ensures link != Down && (ScopeOf(req.content) in old(slots) || req.id !in old(rows)) ==>
                && slots == Record(old(slots), req)
                && rows == if ScopeOf(req.content) in old(slots) then old(rows)
                           else old(rows)[req.id := Row(req.content, NEW_LIFE)]
    {
      if link == Down {
        return Failure(Unavailable);
      }
      var sc := ScopeOf(req.content);
      ReflectsTaken(slots, rows, sc);
      KeysMatchSlots(slots, rows, req.content);
      var outcome: Outcome;
      if exists id | id in rows :: ScopeOf(rows[id].content) == sc {
        var id :| id in rows && ScopeOf(rows[id].content) == sc;
        outcome := if rows[id].content.fingerprint == req.content.fingerprint then Replayed(id) else Conflict;
      } else if req.id in rows {
        return Failure(if link == Up then Database else Unavailable);
      } else {
        AdmitKeepsSound(View(), req);
        Insert(req);
        outcome := Created(req.id);
      }
      r := if link == Up then Success(outcome) else Failure(Unavailable);
    }

    /**
     Claims the oldest claimable rows, at most `limit`: exactly these become `PROCESSING` under
     `owner` with a new lease, and the reply describes each as it was found; SQL leaves the order
     of `RETURNING` open.  The statement fails as a whole if a counter is at its maximum; a column
     that does not parse fails the call after the rows have changed.
     */
    method Claim(owner: WorkerId, limit: nat, leaseMs: nat, now: int, link: Link)
      returns (r: Result<seq<ClaimedEvent>, StoreError>, ghost batch: seq<EventId>)
      requires Valid()
      modifies this
      ensures Valid() && slots == old(slots) && completed == old(completed)
      ensures TakesOldest(old(rows), now, limit, batch) && EarliestFirst(old(rows), now, batch)
      ensures r.Success? ==> multiset(r.value) == multiset(Describe(old(rows), batch))
      ensures r.Success? ==> ReportsAll(r.value, batch, old(rows), rows)
      ensures r.Success? <==>
                limit == 0 || (link == Up && !SomeCounterFull(old(rows), batch) && AllParse(old(rows), batch))
      ensures r.Failure? ==>
                r.error == if link != Up then Unavailable
                           else if SomeCounterFull(old(rows), batch) then Database else Inconsistent
      ensures limit > 0 && link != Down && !SomeCounterFull(old(rows), batch) ==>
                LeasedTo(old(rows), rows, batch, owner, now, leaseMs)
      ensures rows == if link == Down || SomeCounterFull(old(rows), batch) then old(rows)
                      else ClaimRows(old(rows), IdSet(batch), owner, now, leaseMs)
      ensures lastOwner == if link == Down || SomeCounterFull(old(rows), batch) then old(lastOwner)
                           else Reassigned(old(lastOwner), IdSet(batch), owner)
    {
      var taken := PickOldest(rows, now, limit);
      batch := taken;
      if limit == 0 {
        NothingClaimed(rows, lastOwner, taken, owner, now, leaseMs);
        return Success([]), taken;
      }
      if link == Down {
        return Failure(Unavailable), taken;
      }
      if SomeCounterFull(rows, taken) {
        return Failure(if link == Up then Database else Unavailable), taken;
      }
      var claimed, parsed := Describe(rows, taken), AllParse(rows, taken);
      ClaimKeepsSound(View(), IdSet(taken), owner, now, leaseMs);
      DescriptionReports(rows, taken, owner, now, leaseMs);
      ClaimLeases(rows, taken, owner, now, leaseMs);
      UpdateClaimed(IdSet(taken), owner, now, leaseMs);
      r := if link != Up then Failure(Unavailable) else if parsed then Success(claimed) else Failure(Inconsistent);
    }

    /**
     Completes the event if, and only if, its latest claim is `owner`'s and nobody has completed it;
     otherwise changes nothing.  A lost reply leaves what an answered call leaves.
     */
    method Complete(id: EventId, owner: WorkerId, now: int, link: Link) returns (r: Result<bool, StoreError>)
      requires Valid()
      modifies this
      ensures Valid() && slots == old(slots) && lastOwner == old(lastOwner)
      ensures link == Up ==> r == Success(HoldsClaim(old(lastOwner), old(completed), id, owner))
      ensures link != Up ==> r == Failure(Unavailable)
      ensures completed == if link != Down && HoldsClaim(old(lastOwner), old(completed), id, owner)
                           then old(completed) + {id} else old(completed)
      ensures rows.Keys == old(rows.Keys)
      ensures forall x | x in rows && (x != id || completed == old(completed)) :: rows[x] == old(rows[x])
      ensures completed != old(completed) ==>
                && rows[id].content == old(rows[id]).content
                && rows[id].life == Lifecycle(
                     Processed, None, old(rows[id]).life.startedAt, None, Some(now), old(rows[id]).life.attempts)
    {
      if link == Down {
        return Failure(Unavailable);
      }
      var affected := 0;
      HolderOwns(rows, lastOwner, completed, id, owner);
      if id in rows && Owns(rows[id], owner) {
        CompletionKeepsSound(View(), id, owner, now);
        UpdateCompleted(id, now);
        affected := 1;
      }
      r := if link == Up then Success(affected == 1) else Failure(Unavailable);
    }
  }

  lemma NothingClaimed(
    rows: Table, lastOwner: map<EventId, WorkerId>, batch: seq<EventId>, owner: WorkerId, now: int, leaseMs: int)
    requires batch == []
    ensures ClaimRows(rows, IdSet(batch), owner, now, leaseMs) == rows
    ensures Reassigned(lastOwner, IdSet(batch), owner) == lastOwner
  {
  }

  /** Nothing that is left waiting was accepted before a row that is taken; ties go by event ID. */
  ghost predicate EarliestFirst(rows: Table, now: int, batch: seq<EventId>) {
    forall b, id | b in batch && b in rows && id in rows && id !in batch && Claimable(rows[id], now) ::
      && rows[b].content.acceptedAt <= rows[id].content.acceptedAt
      && (rows[b].content.acceptedAt == rows[id].content.acceptedAt ==> b < id)
  }

  /** Scans the claimable rows, oldest first, up to the limit. */
  method PickOldest(rows: Table, now: int, limit: nat) returns (batch: seq<EventId>)
    ensures TakesOldest(rows, now, limit, batch) && EarliestFirst(rows, now, batch)
  {
    batch := [];
    var remaining := set id | id in rows && Claimable(rows[id], now);
    while |batch| < limit && remaining != {}
      invariant OldestFirst(rows, batch) && |batch| <= limit
      invariant remaining <= rows.Keys
      invariant forall id | id in batch :: Claimable(rows[id], now)
      invariant forall id | id in rows && Claimable(rows[id], now) :: id in batch || id in remaining
      invariant forall id, b | id in remaining && b in batch :: Older(rows, b, id)
      decreases remaining
    {
      OldestExists(rows, remaining);
      var id :| id in remaining && IsOldest(rows, remaining, id);
      batch := batch + [id];
      remaining := remaining - {id};
    }
  }
}
