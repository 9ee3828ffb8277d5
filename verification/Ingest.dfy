/** `POST /v1/events`: from the request to the reply, on one store. */
module Ingest {
  import opened Utf8
  import opened JsonModel
  import opened EventModel
  import opened Canonical
  import opened Fingerprint
  import opened Schema
  import opened Requests
  import opened Ledger
  import opened StoreModel
  import Protocol

  datatype Body = Body(source: string, eventType: string, payload: Json)

  datatype HttpReply =
    | Accepted(id: EventId, replayed: bool)   // 202
    | KeyRejected(keyError: KeyError)         // 400
    | BodyRejected                            // 400, 413 or 415
    | EventRejected(error: ValidationError)   // 400
    | IdempotencyConflict                     // 409
    | PersistenceUnavailable                  // 503
    | InternalError                           // 500

  /** `HeaderValue::to_str`: visible ASCII, space and tab. */
  function HeaderText(bytes: seq<Byte>): Option<string> {
    if forall i | 0 <= i < |bytes| :: bytes[i] == 0x09 || 0x20 <= bytes[i] <= 0x7E
    then Some(seq(|bytes|,
                  i requires 0 <= i < |bytes| && (bytes[i] == 0x09 || 0x20 <= bytes[i] <= 0x7E) => bytes[i] as char))
    else None
  }

  function HeaderKey(header: Option<seq<Byte>>): Result<string, KeyError> {
    match header
    case None => Failure(Missing)
    case Some(bytes) =>
      match HeaderText(bytes)
      case None => Failure(Invalid)
      case Some(text) => ParseKey(text)
  }

  /** The store holds only requests that were fingerprinted with `hash`. */
  ghost predicate StoreFingerprinted(hash: Hash, rows: Table) {
    forall id | id in rows :: Fingerprinted(hash, rows[id].content)
  }

  lemma {:induction false} EncodeLength(s: string)
    ensures |Encode(s)| <= 4 * |s|
  {
    if s != [] {
      EncodeLength(s[1..]);
    }
  }

  lemma LabelsHashable(event: Event)
    requires ValidEvent(event) && WellFormed(event.payload) && |CanonicalBytes(event.payload)| < LENGTH_LIMIT
    ensures Hashable(event.source, event.eventType, event.payload)
  {
    EncodeLength(event.source);
    EncodeLength(event.eventType);
    var parts := Parts(event.source, event.eventType, event.payload);
    forall i | 0 <= i < |parts| ensures |parts[i]| < LENGTH_LIMIT {
      assert i == 0 || i == 1 || i == 2 || i == 3;
    }
  }

  /** The answer of the store, as HTTP. */
  function Render(r: Result<Outcome, StoreError>): HttpReply {
    match r
    case Success(Created(id)) => Accepted(id, false)
    case Success(Replayed(id)) => Accepted(id, true)
    case Success(Conflict) => IdempotencyConflict
    case Failure(Unavailable) => PersistenceUnavailable
    case Failure(Database) => InternalError
    case Failure(Inconsistent) => InternalError
  }

  /** The checks made before the store is touched, in order: key, body, event. */
  function Validate(
    header: Option<seq<Byte>>, body: Option<Body>, freshId: EventId)
    : Result<(string, Event), HttpReply>
  {
    match HeaderKey(header)
    case Failure(err) => Failure(KeyRejected(err))
    case Success(key) =>
      match body
      case None => Failure(BodyRejected)
      case Some(b) =>
        match NewEvent(freshId, b.source, b.eventType, b.payload)
        case Failure(err) => Failure(EventRejected(err))
        case Success(event) => Success((key, event))
  }

  /** The key has the header's bytes as its characters. */
  ghost predicate SpelledAs(key: string, bytes: seq<Byte>) {
    |key| == |bytes| && forall i | 0 <= i < |bytes| :: key[i] as int == bytes[i]
  }

  /** 1 to 128 bytes of visible ASCII. */
  ghost predicate GraphicKey(bytes: seq<Byte>) {
    1 <= |bytes| <= 128 && forall i | 0 <= i < |bytes| :: 0x21 <= bytes[i] <= 0x7E
  }

  lemma {:induction false} GraphicHeader(bytes: seq<Byte>)
    ensures HeaderKey(Some(bytes)).Success? <==> GraphicKey(bytes)
    ensures HeaderKey(Some(bytes)).Success? ==>
              SpelledAs(HeaderKey(Some(bytes)).value, bytes) && ValidKey(HeaderKey(Some(bytes)).value)
  {
    var text := HeaderText(bytes);
    if text.Some? {
      KeyAccepted(text.value);
      assert forall i | 0 <= i < |bytes| :: IsGraphic'(text.value[i]) <==> IsGraphic(bytes[i]);
    }
  }

  /** A request passes exactly with a key of 1 to 128 graphic bytes and a valid event, and passes unchanged. */
  lemma ValidatesExactly(header: Option<seq<Byte>>, body: Option<Body>, freshId: EventId)
    ensures Validate(header, body, freshId).Success? <==>
              && header.Some? && GraphicKey(header.value)
              && body.Some? && ValidEvent(Event(freshId, body.value.source, body.value.eventType, body.value.payload))
    ensures Validate(header, body, freshId).Success? ==>
              && SpelledAs(Validate(header, body, freshId).value.0, header.value)
              && Validate(header, body, freshId).value.1
                   == Event(freshId, body.value.source, body.value.eventType, body.value.payload)
  {
    if header.Some? {
      GraphicHeader(header.value);
    }
    if body.Some? {
      NewEventAccepts(freshId, body.value.source, body.value.eventType, body.value.payload);
    }
  }

  /** Which reply a rejected request gets: the key is looked at first, then the body, then the event. */
  lemma RejectsInOrder(header: Option<seq<Byte>>, body: Option<Body>, freshId: EventId)
    ensures header.None? ==> Validate(header, body, freshId) == Failure(KeyRejected(Missing))
    ensures header.Some? && !GraphicKey(header.value) ==>
              Validate(header, body, freshId) == Failure(KeyRejected(Invalid))
    ensures header.Some? && GraphicKey(header.value) && body.None? ==>
              Validate(header, body, freshId) == Failure(BodyRejected)
    ensures header.Some? && GraphicKey(header.value) && body.Some? ==>
              var event := NewEvent(freshId, body.value.source, body.value.eventType, body.value.payload);
              event.Failure? ==> Validate(header, body, freshId) == Failure(EventRejected(event.error))
  {
    if header.Some? {
      GraphicHeader(header.value);
      var text := HeaderText(header.value);
      if text.Some? {
        KeyAccepted(text.value);
      }
    }
  }

  /** What `Handle` sends to the store for a valid request. */
  function ToRequest(hash: Hash, key: string, event: Event, now: int): Request {
    Request(event.id, Content(
      event.source, event.eventType, event.payload, key,
      hash(Preimage(event.source, event.eventType, event.payload)), now))
  }

  /** What passes validation is what the store's constraints and the protocol ask for. */
  lemma ValidatedIsValid(hash: Hash, header: Option<seq<Byte>>, body: Option<Body>, freshId: EventId, now: int)
    requires Validate(header, body, freshId).Success? && forall bs :: |hash(bs)| == 32
    ensures var valid := Validate(header, body, freshId).value;
            ValidContent(ToRequest(hash, valid.0, valid.1, now).content)
  {
    ValidatesExactly(header, body, freshId);
    GraphicHeader(header.value);
  }

  /** So every request that `ingest` sends may begin its transaction, in every state of the protocol. */
  lemma IngestMayBegin(
    hash: Hash, header: Option<seq<Byte>>, body: Option<Body>, freshId: EventId, now: int, s: Protocol.State, tx: TxId)
    returns (s': Protocol.State)
    requires Validate(header, body, freshId).Success? && (forall bs :: |hash(bs)| == 32) && tx !in s.admissions
    ensures var valid := Validate(header, body, freshId).value;
            Protocol.BeginAdmit(s, s', tx, ToRequest(hash, valid.0, valid.1, now))
  {
    var valid := Validate(header, body, freshId).value;
    ValidatedIsValid(hash, header, body, freshId, now);
    var req := ToRequest(hash, valid.0, valid.1, now);
    s' := s.(admissions := s.admissions[tx := Protocol.Admission(req, Protocol.Begun)]);
  }

  /** A row that has just been admitted. */
  function Pending(c: Content): Row {
    Row(c, Lifecycle(EventStatus.Pending, None, None, None, None, 0))
  }

  /**
   The reply and the new table, on every path: no connection, a lost reply, a duplicate ID, a new
   event, a replay and a conflict.
   */
  ghost predicate Answers(reply: HttpReply, link: Link, rows: Table, rows': Table, req: Request) {
    && (link != Up ==> reply == PersistenceUnavailable)
    && (link == Up && (forall id :: !HasKeyOf(rows, id, req.content)) ==>
          reply == if req.id in rows then InternalError else Accepted(req.id, false))
    && (forall id | HasKeyOf(rows, id, req.content) && link == Up ::
          reply == if rows[id].content.fingerprint == req.content.fingerprint then Accepted(id, true)
                   else IdempotencyConflict)
    && rows' == (if link == Down || req.id in rows || (exists id :: HasKeyOf(rows, id, req.content)) then rows
                 else rows[req.id := Pending(req.content)])
  }

  /** Fingerprints a valid event, admits it, and reports the outcome. */
  method AdmitEvent(
    hash: Hash, store: Store, key: string, event: Event, now: int, link: Link)
    returns (reply: HttpReply)
    requires store.Valid() && StoreFingerprinted(hash, store.rows)
    requires Hashable(event.source, event.eventType, event.payload)
    modifies store
    ensures store.Valid() && StoreFingerprinted(hash, store.rows)
    ensures Answers(reply, link, old(store.rows), store.rows, ToRequest(hash, key, event, now))
  {
    var fingerprint := Compute(hash, event.source, event.eventType, event.payload);
    var content := Content(event.source, event.eventType, event.payload, key, fingerprint, now);
    InsertFingerprinted(hash, store.rows, event.id, content);
    KeysMatchSlots(store.slots, store.rows, content);
    var outcome := store.Admit(Request(event.id, content), link);
    reply := Render(outcome);
  }

  lemma InsertFingerprinted(hash: Hash, rows: Table, id: EventId, c: Content)
    requires StoreFingerprinted(hash, rows)
    requires Hashable(c.source, c.eventType, c.payload)
    requires c.fingerprint == hash(Preimage(c.source, c.eventType, c.payload))
    ensures StoreFingerprinted(hash, rows[id := Row(c, NEW_LIFE)])
  {
  }

  /**
   Validates before touching the store.  A valid request is answered by the row with its source and
   key, or creates that row; for any other the store is untouched.
   */
  method Handle(
    hash: Hash, store: Store, header: Option<seq<Byte>>, body: Option<Body>, freshId: EventId, now: int, link: Link)
    returns (reply: HttpReply)
    requires store.Valid() && StoreFingerprinted(hash, store.rows)
    requires body.Some? ==> WellFormed(body.value.payload) && |CanonicalBytes(body.value.payload)| < LENGTH_LIMIT
    modifies store
    ensures store.Valid() && StoreFingerprinted(hash, store.rows)
    ensures match Validate(header, body, freshId)
            case Failure(rejection) =>
              reply == rejection && store.rows == old(store.rows) && store.slots == old(store.slots)
            case Success(valid) =>
              Answers(reply, link, old(store.rows), store.rows, ToRequest(hash, valid.0, valid.1, now))
  {
    var valid := Validate(header, body, freshId);
    if valid.Failure? {
      return valid.error;
    }
    ValidatesExactly(header, body, freshId);
    LabelsHashable(valid.value.1);
    reply := AdmitEvent(hash, store, valid.value.0, valid.value.1, now, link);
  }

  /**
   End to end: a request whose source and key are those of a stored event is accepted as a replay
   exactly when its type and payload are those of the stored request, up to the order of object keys,
   and refused as a conflict otherwise, unless the hash collides on the two; the table stays as it is.
   */
  lemma ReplayExactlyWhenSame(
    hash: Hash, reply: HttpReply, rows: Table, rows': Table, req: Request, stored: EventId)
    requires Answers(reply, Up, rows, rows', req) && HasKeyOf(rows, stored, req.content)
    requires StoreFingerprinted(hash, rows) && Fingerprinted(hash, req.content)
    requires NoContentCollision(hash, rows[stored].content, req.content)
    ensures rows' == rows
    ensures reply == Accepted(stored, true) <==>
              && rows[stored].content.eventType == req.content.eventType
              && SameJson(rows[stored].content.payload, req.content.payload)
    ensures reply == IdempotencyConflict <==>
              !(rows[stored].content.eventType == req.content.eventType
                && SameJson(rows[stored].content.payload, req.content.payload))
  {
    SameFingerprint(hash, rows[stored].content, req.content);
  }
}
