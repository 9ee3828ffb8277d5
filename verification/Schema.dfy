/**
 The `events` table: its columns, CHECK constraints and immutability trigger, and the
 row changes that the store's statements make.  Times are microseconds of the database
 clock.
 */
module Schema {
  import opened Utf8
  import opened JsonModel
  import opened EventModel

  type EventId = nat
  type WorkerId = nat

  /** The largest `INTEGER`. */
  const MAX_ATTEMPTS := 0x7FFF_FFFF

  /** Configured lease range, in milliseconds. */
  const MIN_LEASE_MS := 1_000
  const MAX_LEASE_MS := 3_600_000

  /** Immutable columns. */
  datatype Content = Content(
    source: string, eventType: string, payload: Json, key: string,
    fingerprint: seq<Byte>, acceptedAt: int)

  /** Mutable processing columns. */
  datatype Lifecycle = Lifecycle(
    status: EventStatus, owner: Option<WorkerId>, startedAt: Option<int>,
    leaseExpiresAt: Option<int>, processedAt: Option<int>, attempts: int)

  datatype Row = Row(content: Content, life: Lifecycle)

  type Table = map<EventId, Row>

  // ---------------------------------------------------------------- constraints

  predicate FieldChecks(c: Content) {
    && 1 <= |c.source| <= 100
    && 1 <= |c.eventType| <= 150
    && c.payload != Null
    && 1 <= |c.key| <= 128
    && |c.fingerprint| == 32
  }

  predicate LifecycleCheck(l: Lifecycle) {
    || (l.status == Pending
        && l.owner == None && l.startedAt == None && l.leaseExpiresAt == None && l.processedAt == None)
    || (l.status == Processing
        && l.owner != None && l.startedAt != None && l.leaseExpiresAt != None && l.processedAt == None
        && l.attempts >= 1)
    || (l.status == Processed
        && l.owner == None && l.leaseExpiresAt == None && l.processedAt != None
        && l.attempts >= 1)
  }

  /** Column by column: owner and lease exactly while `PROCESSING`, `processed_at` exactly when `PROCESSED`. */
  lemma LifecycleByColumn(l: Lifecycle)
    ensures LifecycleCheck(l) <==>
              && (l.owner.Some? <==> l.status == Processing)
              && (l.leaseExpiresAt.Some? <==> l.status == Processing)
              && (l.processedAt.Some? <==> l.status == Processed)
              && (l.status == Pending ==> l.startedAt.None?)
              && (l.status == Processing ==> l.startedAt.Some?)
              && (l.status != Pending ==> l.attempts >= 1)
  {
  }

  /** The row passes every CHECK and `delivery_attempts` fits its column. */
  predicate RowChecks(row: Row) {
    && FieldChecks(row.content)
    && LifecycleCheck(row.life)
    && 0 <= row.life.attempts <= MAX_ATTEMPTS
  }

  /** The trigger lets an update through only if no content column changed. */
  predicate TriggerAllows(before: Row, after: Row) {
    before.content == after.content
  }

  /** That is, if none of the six columns beside the ID differs. */
  lemma TriggerByColumn(before: Row, after: Row)
    ensures TriggerAllows(before, after) <==>
              && after.content.source == before.content.source
              && after.content.eventType == before.content.eventType
              && after.content.payload == before.content.payload
              && after.content.key == before.content.key
              && after.content.fingerprint == before.content.fingerprint
              && after.content.acceptedAt == before.content.acceptedAt
  {
  }

  /** What validation establishes before a request reaches the store. */
  predicate ValidContent(c: Content) {
    && ValidLabel(c.source, MAX_SOURCE_CHARS)
    && ValidLabel(c.eventType, MAX_EVENT_TYPE_CHARS)
    && c.payload != Null
    && ValidKey(c.key)
    && |c.fingerprint| == 32
  }

  lemma ValidContentPassesChecks(c: Content)
    requires ValidContent(c)
    ensures FieldChecks(c)
  {
  }

  /** The CHECKs bound lengths exactly where validation does. */
  lemma ChecksBoundLengths(c: Content)
    ensures FieldChecks(c) <==>
              && c.source != "" && |c.source| <= MAX_SOURCE_CHARS
              && c.eventType != "" && |c.eventType| <= MAX_EVENT_TYPE_CHARS
              && c.key != "" && |c.key| <= MAX_IDEMPOTENCY_KEY_CHARS
              && !c.payload.Null? && |c.fingerprint| == 32
  {
  }

  // ---------------------------------------------------------------- row changes

  const NEW_LIFE := Lifecycle(Pending, None, None, None, None, 0)

  /** `PENDING`, or `PROCESSING` with a lease that has run out by `now`. */
  predicate Claimable(row: Row, now: int) {
    || row.life.status == Pending
    || (row.life.status == Processing && row.life.leaseExpiresAt.Some? && row.life.leaseExpiresAt.value <= now)
  }

  function Claimed(row: Row, owner: WorkerId, now: int, leaseMs: int): Row {
    row.(life := row.life.(
      status := Processing,
      owner := Some(owner),
      startedAt := Some(now),
      leaseExpiresAt := Some(now + leaseMs * 1000),
      attempts := row.life.attempts + 1))
  }

  predicate Owns(row: Row, owner: WorkerId) {
    row.life.status == Processing && row.life.owner == Some(owner)
  }

  function Completed(row: Row, now: int): Row {
    row.(life := row.life.(
      status := Processed,
      processedAt := Some(now),
      owner := None,
      leaseExpiresAt := None))
  }

  /** A claim update passes the checks and the trigger, short of the counter's maximum. */
  lemma ClaimPassesChecks(row: Row, owner: WorkerId, now: int, leaseMs: int)
    requires RowChecks(row) && Claimable(row, now) && row.life.attempts < MAX_ATTEMPTS
    ensures RowChecks(Claimed(row, owner, now, leaseMs)) && FieldChecks(Claimed(row, owner, now, leaseMs).content)
    ensures TriggerAllows(row, Claimed(row, owner, now, leaseMs))
  {
  }

  lemma CompletionPassesChecks(row: Row, owner: WorkerId, now: int)
    requires RowChecks(row) && Owns(row, owner)
    ensures RowChecks(Completed(row, now)) && FieldChecks(Completed(row, now).content)
    ensures TriggerAllows(row, Completed(row, now))
  {
  }

  // ---------------------------------------------------------------- claim order

  /** `ORDER BY accepted_at, event_id`. */
  predicate Older(rows: Table, a: EventId, b: EventId)
    requires a in rows && b in rows
  {
    var (ta, tb) := (rows[a].content.acceptedAt, rows[b].content.acceptedAt);
    ta < tb || (ta == tb && a < b)
  }

  predicate OldestFirst(rows: Table, ids: seq<EventId>) {
    && (forall i | 0 <= i < |ids| :: ids[i] in rows)
    && forall i, j | 0 <= i < j < |ids| :: Older(rows, ids[i], ids[j])
  }

  /** Oldest first means by acceptance time, and by event ID among rows of one time. */
  lemma OldestFirstByTime(rows: Table, ids: seq<EventId>)
    ensures OldestFirst(rows, ids) <==>
              && (forall i | 0 <= i < |ids| :: ids[i] in rows)
              && forall i, j | 0 <= i < j < |ids| ::
                   && rows[ids[i]].content.acceptedAt <= rows[ids[j]].content.acceptedAt
                   && (rows[ids[i]].content.acceptedAt == rows[ids[j]].content.acceptedAt ==> ids[i] < ids[j])
  {
  }

  /** `ids` are the claimable rows, oldest first. */
  ghost predicate IsCandidates(rows: Table, now: int, ids: seq<EventId>) {
    && OldestFirst(rows, ids)
    && forall id :: id in ids <==> id in rows && Claimable(rows[id], now)
  }

  function IdSet(ids: seq<EventId>): set<EventId> {
    set id | id in ids
  }

  function ClaimRows(rows: Table, ids: set<EventId>, owner: WorkerId, now: int, leaseMs: int): Table {
    map id | id in rows :: if id in ids then Claimed(rows[id], owner, now, leaseMs) else rows[id]
  }
}
