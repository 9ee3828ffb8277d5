/** The validated event: labels, payload and lifecycle status. */
module EventModel {
  import opened Utf8
  import opened JsonModel

  datatype Result<+T, +E> = Success(value: T) | Failure(error: E)

  const MAX_SOURCE_CHARS := 100
  const MAX_EVENT_TYPE_CHARS := 150
  const MAX_IDEMPOTENCY_KEY_CHARS := 128

  datatype Field = SourceField | EventTypeField

  datatype ValidationError =
    | Empty(field: Field)
    | TooLong(field: Field, max: nat)
    | ControlCharacter(field: Field)
    | NullPayload

  /** Unicode `White_Space`, as `str::trim` uses it. */
  predicate IsWhitespace(c: char) {
    var n := c as int;
    || 0x09 <= n <= 0x0D || n == 0x20 || n == 0x85 || n == 0xA0 || n == 0x1680
    || 0x2000 <= n <= 0x200A || n == 0x2028 || n == 0x2029 || n == 0x202F || n == 0x205F || n == 0x3000
  }

  /** Unicode category `Cc`. */
  predicate IsControl(c: char) {
    c as int <= 0x1F || 0x7F <= c as int <= 0x9F
  }

  /** These and no other characters are white space. */
  lemma WhitespaceListed(c: char)
    ensures IsWhitespace(c) <==>
              c in {'\U{9}', '\U{A}', '\U{B}', '\U{C}', '\U{D}', '\U{20}', '\U{85}', '\U{A0}', '\U{1680}',
                    '\U{2000}', '\U{2001}', '\U{2002}', '\U{2003}', '\U{2004}', '\U{2005}', '\U{2006}',
                    '\U{2007}', '\U{2008}', '\U{2009}', '\U{200A}', '\U{2028}', '\U{2029}', '\U{202F}',
                    '\U{205F}', '\U{3000}'}
  {
  }

  /** The first 32 characters of each half of the first 256, and DEL between the halves. */
  lemma ControlsListed(c: char)
    ensures IsControl(c) <==> (c as int < 256 && c as int % 128 < 32) || c == '\U{7F}'
  {
  }

  function TrimStart(s: string): string {
    if s != [] && IsWhitespace(s[0]) then TrimStart(s[1..]) else s
  }

  function TrimEnd(s: string): string {
    if s != [] && IsWhitespace(s[|s| - 1]) then TrimEnd(s[..|s| - 1]) else s
  }

  function Trim(s: string): string {
    TrimEnd(TrimStart(s))
  }

  function ValidateLabel(field: Field, value: string, max: nat): Result<(), ValidationError> {
    if Trim(value) == [] then Failure(Empty(field))
    else if |value| > max then Failure(TooLong(field, max))
    else if exists i :: 0 <= i < |value| && IsControl(value[i]) then Failure(ControlCharacter(field))
    else Success(())
  }

  predicate ValidLabel(value: string, max: nat) {
    && (exists i :: 0 <= i < |value| && !IsWhitespace(value[i]))
    && |value| <= max
    && forall i | 0 <= i < |value| :: !IsControl(value[i])
  }

  lemma {:induction false} TrimStartEmpty(s: string)
    ensures TrimStart(s) == [] <==> forall i | 0 <= i < |s| :: IsWhitespace(s[i])
    ensures TrimStart(s) != [] ==> !IsWhitespace(TrimStart(s)[0])
  {
    if s != [] && IsWhitespace(s[0]) {
      TrimStartEmpty(s[1..]);
      assert forall i | 0 < i < |s| :: s[i] == s[1..][i - 1];
    }
  }

  lemma {:induction false} TrimEndKeepsFirst(s: string)
    requires s != [] && !IsWhitespace(s[0])
    ensures TrimEnd(s) != []
  {
    if IsWhitespace(s[|s| - 1]) {
      TrimEndKeepsFirst(s[..|s| - 1]);
    }
  }

  /** A label is accepted exactly when it is not blank, not too long and free of control characters. */
  lemma LabelAccepted(field: Field, value: string, max: nat)
    ensures ValidateLabel(field, value, max).Success? <==> ValidLabel(value, max)
  {
    TrimStartEmpty(value);
    if TrimStart(value) != [] {
      TrimEndKeepsFirst(TrimStart(value));
    }
  }

  /** Which error a label gets: blank first, then too long, then a control character. */
  lemma LabelRejectedWith(field: Field, value: string, max: nat)
    ensures ValidateLabel(field, value, max) == Failure(Empty(field)) <==>
              forall i | 0 <= i < |value| :: IsWhitespace(value[i])
    ensures ValidateLabel(field, value, max) == Failure(TooLong(field, max)) <==>
              (exists i :: 0 <= i < |value| && !IsWhitespace(value[i])) && |value| > max
    ensures ValidateLabel(field, value, max) == Failure(ControlCharacter(field)) <==>
              && (exists i :: 0 <= i < |value| && !IsWhitespace(value[i])) && |value| <= max
              && exists i :: 0 <= i < |value| && IsControl(value[i])
  {
    LabelAccepted(field, value, max);
    TrimStartEmpty(value);
    if TrimStart(value) != [] {
      TrimEndKeepsFirst(TrimStart(value));
    }
  }

  // ---------------------------------------------------------------- idempotency keys

  datatype KeyError = Missing | Invalid

  predicate IsGraphic(b: Byte) {
    0x21 <= b <= 0x7E
  }

  /** The header bytes are text when all are visible ASCII, space or tab; a key is 1 to 128 graphic bytes. */
  function ParseKey(value: string): Result<string, KeyError> {
    var bytes := Encode(value);
    if 1 <= |bytes| <= MAX_IDEMPOTENCY_KEY_CHARS && forall i | 0 <= i < |bytes| :: IsGraphic(bytes[i])
    then Success(value)
    else Failure(Invalid)
  }

  predicate ValidKey(key: string) {
    && 1 <= |key| <= MAX_IDEMPOTENCY_KEY_CHARS
    && forall i | 0 <= i < |key| :: IsGraphic'(key[i])
  }

  predicate IsGraphic'(c: char) {
    '!' <= c <= '~'
  }

  lemma {:induction false} AsciiEncodesAsItself(s: string)
    ensures (forall i | 0 <= i < |Encode(s)| :: IsGraphic(Encode(s)[i]))
       <==> (forall i | 0 <= i < |s| :: IsGraphic'(s[i]))
    ensures (forall i | 0 <= i < |s| :: IsGraphic'(s[i])) ==> |Encode(s)| == |s|
    ensures s != [] ==> Encode(s) != []
  {
    if s != [] {
      AsciiEncodesAsItself(s[1..]);
      var head, tail := EncodeChar(s[0]), Encode(s[1..]);
      assert Encode(s) == head + tail;
      assert forall i | 0 <= i < |tail| :: Encode(s)[|head| + i] == tail[i];
      assert forall i | 0 < i < |s| :: s[i] == s[1..][i - 1];
      assert Encode(s)[0] == head[0];
      if IsGraphic'(s[0]) {
        assert forall i | 0 <= i < |Encode(s)| :: i == 0 || Encode(s)[i] == tail[i - 1];
      }
    }
  }

  /** A key is accepted exactly when it is 1 to 128 visible ASCII characters. */
  lemma KeyAccepted(value: string)
    ensures ParseKey(value) == Success(value) <==> ValidKey(value)
    ensures ParseKey(value) == Success(value) <==>
              1 <= |value| <= 128 && forall i | 0 <= i < |value| :: '!' <= value[i] <= '~'
    ensures ParseKey(value) != Success(value) ==> ParseKey(value) == Failure(Invalid)
  {
    AsciiEncodesAsItself(value);
  }

  // ---------------------------------------------------------------- status

  datatype EventStatus = Pending | Processing | Processed

  function AsDbStr(status: EventStatus): string {
    match status
    case Pending => "PENDING"
    case Processing => "PROCESSING"
    case Processed => "PROCESSED"
  }

  function FromDbStr(value: string): Option<EventStatus> {
    if value == "PENDING" then Some(Pending)
    else if value == "PROCESSING" then Some(Processing)
    else if value == "PROCESSED" then Some(Processed)
    else None
  }

  /** The CHECK of the `status` column. */
  predicate StatusCheck(text: string) {
    text == "PENDING" || text == "PROCESSING" || text == "PROCESSED"
  }

  /** The column's CHECK admits exactly the texts that are read back, and reading loses nothing. */
  lemma StatusCheckParses(text: string)
    ensures StatusCheck(text) <==> FromDbStr(text).Some?
    ensures FromDbStr(text).Some? ==> AsDbStr(FromDbStr(text).value) == text
  {
    assert |"PENDING"| == 7 && |"PROCESSING"| == 10 && |"PROCESSED"| == 9;
  }

  lemma StatusRoundTrip(status: EventStatus)
    ensures FromDbStr(AsDbStr(status)) == Some(status)
    ensures AsDbStr(status) == AsDbStr(Processing) <==> status == Processing
  {
    assert |"PENDING"| == 7 && |"PROCESSING"| == 10 && |"PROCESSED"| == 9;
  }

  // ---------------------------------------------------------------- the event

  datatype Event = Event(id: nat, source: string, eventType: string, payload: Json)

  predicate ValidEvent(e: Event) {
    && ValidLabel(e.source, MAX_SOURCE_CHARS)
    && ValidLabel(e.eventType, MAX_EVENT_TYPE_CHARS)
    && e.payload != Null
  }

  /** `Event::new`; the fresh identity is a parameter. */
  function NewEvent(id: nat, source: string, eventType: string, payload: Json): Result<Event, ValidationError> {
    match ValidateLabel(SourceField, source, MAX_SOURCE_CHARS)
    case Failure(err) => Failure(err)
    case Success(_) =>
      match ValidateLabel(EventTypeField, eventType, MAX_EVENT_TYPE_CHARS)
      case Failure(err) => Failure(err)
      case Success(_) =>
        if payload == Null then Failure(NullPayload)
        else Success(Event(id, source, eventType, payload))
  }

  /** Validation accepts exactly the valid events and changes nothing. */
  lemma NewEventAccepts(id: nat, source: string, eventType: string, payload: Json)
    ensures NewEvent(id, source, eventType, payload).Success? <==> ValidEvent(Event(id, source, eventType, payload))
    ensures NewEvent(id, source, eventType, payload).Success? ==>
              NewEvent(id, source, eventType, payload).value == Event(id, source, eventType, payload)
  {
    LabelAccepted(SourceField, source, MAX_SOURCE_CHARS);
    LabelAccepted(EventTypeField, eventType, MAX_EVENT_TYPE_CHARS);
  }

  /** Which error an event gets: the source's first, then the type's, then that of a null payload. */
  lemma NewEventRejectedWith(id: nat, source: string, eventType: string, payload: Json)
    ensures !ValidLabel(source, 100) ==>
              && ValidateLabel(SourceField, source, 100).Failure?
              && NewEvent(id, source, eventType, payload)
                   == Failure(ValidateLabel(SourceField, source, 100).error)
    ensures ValidLabel(source, 100) && !ValidLabel(eventType, 150) ==>
              && ValidateLabel(EventTypeField, eventType, 150).Failure?
              && NewEvent(id, source, eventType, payload)
                   == Failure(ValidateLabel(EventTypeField, eventType, 150).error)
    ensures ValidLabel(source, 100) && ValidLabel(eventType, 150) ==>
              NewEvent(id, source, eventType, payload) ==
                if payload.Null? then Failure(NullPayload) else Success(Event(id, source, eventType, payload))
  {
    LabelAccepted(SourceField, source, 100);
    LabelAccepted(EventTypeField, eventType, 150);
  }
}
