/**
 A left inverse of `Print`: reading back what was printed yields the value and leaves
 whatever followed it.  From it, the canonical bytes determine the payload exactly up to
 the order of object keys.
 */
module JsonParser {
  import opened Utf8
  import opened JsonModel
  import opened Canonical

  datatype Parsed<+T> = Fail | Ok(value: T, rest: seq<Byte>)

  // ---------------------------------------------------------------- strings

  function Unhex(b: Byte): Option<int> {
    if IsDigit(b) then Some(b - 0x30)
    else if 0x61 <= b <= 0x66 then Some(b - 0x57)
    else None
  }

  function Unshort(b: Byte): Option<Byte> {
    if b == QUOTE || b == BACKSLASH then Some(b)
    else if b == 0x62 then Some(0x08)
    else if b == 0x74 then Some(0x09)
    else if b == 0x6E then Some(0x0A)
    else if b == 0x66 then Some(0x0C)
    else if b == 0x72 then Some(0x0D)
    else None
  }

  /** Reads one byte of string content, escaped or plain. */
  function ReadByte(s: seq<Byte>): (r: Parsed<Byte>)
    ensures r.Ok? ==> |r.rest| < |s|
  {
    if s == [] then Fail
    else if s[0] != BACKSLASH then Ok(s[0], s[1..])
    else if |s| < 2 then Fail
    else if s[1] != 0x75 then
      match Unshort(s[1])
      case Some(b) => Ok(b, s[2..])
      case None => Fail
    else if |s| < 6 then Fail
    else
      match (Unhex(s[4]), Unhex(s[5]))
      case (Some(h), Some(l)) => Ok(h * 16 + l, s[6..])
      case _ => Fail
  }

  /** Reads string content up to and including the closing quote. */
  function ReadContent(s: seq<Byte>): (r: Parsed<seq<Byte>>)
    ensures r.Ok? ==> |r.rest| < |s|
    decreases |s|
  {
    if s == [] then Fail
    else if s[0] == QUOTE then Ok([], s[1..])
    else
      match ReadByte(s)
      case Fail => Fail
      case Ok(b, rest) =>
        match ReadContent(rest)
        case Fail => Fail
        case Ok(bs, rest') => Ok([b] + bs, rest')
  }

  function ReadString(s: seq<Byte>): (r: Parsed<string>)
    ensures r.Ok? ==> |r.rest| < |s|
  {
    if s == [] || s[0] != QUOTE then Fail
    else
      match ReadContent(s[1..])
      case Fail => Fail
      case Ok(bs, rest) =>
        match Decode(bs)
        case None => Fail
        case Some(text) => Ok(text, rest)
  }

  lemma ByteRoundTrip(b: Byte, rest: seq<Byte>)
    ensures EscapeByte(b)[0] != QUOTE
    ensures ReadByte(EscapeByte(b) + rest) == Ok(b, rest)
  {
    var e := EscapeByte(b);
    assert (e + rest)[|e|..] == rest;
  }

  lemma {:induction false} ContentRoundTrip(bs: seq<Byte>, rest: seq<Byte>)
    ensures ReadContent(Escape(bs) + ([QUOTE] + rest)) == Ok(bs, rest)
  {
    if bs == [] {
      assert Escape(bs) + ([QUOTE] + rest) == [QUOTE] + rest;
    } else {
      var tail := Escape(bs[1..]) + ([QUOTE] + rest);
      EscapeText(bs, [QUOTE] + rest);
      ByteRoundTrip(bs[0], tail);
      ContentRoundTrip(bs[1..], rest);
      ReadContentGoesOn(EscapeByte(bs[0]) + tail, bs[0], tail, bs[1..], rest);
      assert [bs[0]] + bs[1..] == bs;
    }
  }

  lemma Associate(a: seq<Byte>, b: seq<Byte>, c: seq<Byte>)
    ensures a + b + c == a + (b + c)
  {
  }

  lemma {:induction false} EscapeText(bs: seq<Byte>, after: seq<Byte>)
    requires bs != []
    ensures Escape(bs) + after == EscapeByte(bs[0]) + (Escape(bs[1..]) + after)
  {
    Associate(EscapeByte(bs[0]), Escape(bs[1..]), after);
  }

  lemma {:induction false} ReadContentGoesOn(s: seq<Byte>, b: Byte, tail: seq<Byte>, bs: seq<Byte>, rest: seq<Byte>)
    requires s != [] && s[0] != QUOTE && ReadByte(s) == Ok(b, tail)
    requires ReadContent(tail) == Ok(bs, rest)
    ensures ReadContent(s) == Ok([b] + bs, rest)
  {
  }

  /** Escaping and UTF-8 encoding lose nothing of a string. */
  lemma StringRoundTrip(text: string, rest: seq<Byte>)
    ensures ReadString(PrintString(text) + rest) == Ok(text, rest)
  {
    var bs := Encode(text);
    assert (PrintString(text) + rest)[1..] == Escape(bs) + ([QUOTE] + rest);
    ContentRoundTrip(bs, rest);
    RoundTrip(text);
  }

  // ---------------------------------------------------------------- numbers

  /** The length of the longest prefix of number bytes. */
  function NumberLength(s: seq<Byte>): (n: nat)
    ensures n <= |s|
  {
    if s == [] || !IsNumberByte(s[0]) then 0 else 1 + NumberLength(s[1..])
  }

  function Undecimal(digits: seq<int>): int {
    if digits == [] then 0
    else Undecimal(digits[..|digits| - 1]) * 10 + (digits[|digits| - 1] - 0x30)
  }

  function ReadNumber(token: seq<Byte>): Number
    requires token != []
  {
    if exists i :: 0 <= i < |token| && MarksFloat(token[i]) then Float(token)
    else if token[0] == MINUS then Int(-Undecimal(token[1..]))
    else Int(Undecimal(token))
  }

  /** What may follow a number without being taken for a part of it. */
  predicate Stops(rest: seq<Byte>) {
    rest == [] || !IsNumberByte(rest[0])
  }

  lemma {:induction false} NumberLengthExact(token: seq<Byte>, rest: seq<Byte>)
    requires forall i | 0 <= i < |token| :: IsNumberByte(token[i])
    requires Stops(rest)
    ensures NumberLength(token + rest) == |token|
  {
    if token == [] {
      assert token + rest == rest;
    } else {
      assert (token + rest)[1..] == token[1..] + rest;
      NumberLengthExact(token[1..], rest);
    }
  }

  lemma {:induction false} DecimalRoundTrip(n: nat)
    ensures Undecimal(Decimal(n)) == n
  {
    var d := Decimal(n);
    if n < 10 {
      assert d[..|d| - 1] == [];
    } else {
      DecimalRoundTrip(n / 10);
      assert d[..|d| - 1] == Decimal(n / 10);
    }
  }

  lemma {:induction false} NumberBytes(num: Number)
    requires WellFormed(Num(num))
    ensures PrintNumber(num) != []
    ensures forall i | 0 <= i < |PrintNumber(num)| :: IsNumberByte(PrintNumber(num)[i])
  {
  }

  lemma {:induction false} NumberRoundTrip(num: Number)
    requires WellFormed(Num(num))
    ensures PrintNumber(num) != [] && ReadNumber(PrintNumber(num)) == num
  {
    var token := PrintNumber(num);
    match num
    case Int(n) =>
      if n < 0 {
        DecimalRoundTrip(-n);
        assert token[1..] == Decimal(-n);
        assert forall i | 0 < i < |token| :: IsDigit(token[i]);
      } else {
        DecimalRoundTrip(n);
        assert forall i | 0 <= i < |token| :: IsDigit(token[i]);
      }
    case Float(_) =>
  }

  // ---------------------------------------------------------------- values

  function Expect(text: seq<Byte>, v: Json, s: seq<Byte>): (r: Parsed<Json>)
    requires text != []
    ensures r.Ok? ==> |r.rest| < |s|
  {
    if text <= s then Ok(v, s[|text|..]) else Fail
  }

  function ReadValue(s: seq<Byte>): (r: Parsed<Json>)
    ensures r.Ok? ==> |r.rest| < |s|
    decreases |s|, 1
  {
    if s == [] then Fail
    else if s[0] == OPEN_BRACE then
      if |s| > 1 && s[1] == CLOSE_BRACE then Ok(Obj([]), s[2..])
      else
        match ReadMembers(s[1..])
        case Fail => Fail
        case Ok(es, rest) => Ok(Obj(es), rest)
    else if s[0] == OPEN_BRACKET then
      if |s| > 1 && s[1] == CLOSE_BRACKET then Ok(Arr([]), s[2..])
      else
        match ReadItems(s[1..])
        case Fail => Fail
        case Ok(items, rest) => Ok(Arr(items), rest)
    else if s[0] == QUOTE then
      match ReadString(s)
      case Fail => Fail
      case Ok(text, rest) => Ok(Str(text), rest)
    else if IsNumberByte(s[0]) then
      var n := NumberLength(s);
      Ok(Num(ReadNumber(s[..n])), s[n..])
    else if s[0] == NULL_TEXT[0] then Expect(NULL_TEXT, Null, s)
    else if s[0] == TRUE_TEXT[0] then Expect(TRUE_TEXT, Bool(true), s)
    else Expect(FALSE_TEXT, Bool(false), s)
  }

  /** Reads one or more items, up to and including the closing bracket. */
  function ReadItems(s: seq<Byte>): (r: Parsed<seq<Json>>)
    ensures r.Ok? ==> |r.rest| < |s|
    decreases |s|, 2
  {
    match ReadValue(s)
    case Fail => Fail
    case Ok(v, rest) =>
      if rest == [] then Fail
      else if rest[0] == CLOSE_BRACKET then Ok([v], rest[1..])
      else if rest[0] != COMMA then Fail
      else
        match ReadItems(rest[1..])
        case Fail => Fail
        case Ok(vs, rest') => Ok([v] + vs, rest')
  }

  function ReadMember(s: seq<Byte>): (r: Parsed<Entry>)
    ensures r.Ok? ==> |r.rest| < |s|
    decreases |s|, 2
  {
    match ReadString(s)
    case Fail => Fail
    case Ok(key, rest) =>
      if rest == [] || rest[0] != COLON then Fail
      else
        match ReadValue(rest[1..])
        case Fail => Fail
        case Ok(v, rest') => Ok(Entry(key, v), rest')
  }

  /** Reads one or more members, up to and including the closing brace. */
  function ReadMembers(s: seq<Byte>): (r: Parsed<seq<Entry>>)
    ensures r.Ok? ==> |r.rest| < |s|
    decreases |s|, 3
  {
    match ReadMember(s)
    case Fail => Fail
    case Ok(e, rest) =>
      if rest == [] then Fail
      else if rest[0] == CLOSE_BRACE then Ok([e], rest[1..])
      else if rest[0] != COMMA then Fail
      else
        match ReadMembers(rest[1..])
        case Fail => Fail
        case Ok(es, rest') => Ok([e] + es, rest')
  }

  lemma {:induction false} PrintStarts(v: Json)
    requires WellFormed(v)
    ensures Print(v) != []
    ensures Print(v)[0] != CLOSE_BRACKET
  {
    if v.Num? {
      NumberBytes(v.num);
    }
  }

  /** Reading undoes printing, whatever follows that cannot extend a number. */
  lemma {:induction false} ValueRoundTrip(v: Json, rest: seq<Byte>)
    requires WellFormed(v) && Stops(rest)
    ensures ReadValue(Print(v) + rest) == Ok(v, rest)
    decreases v, 1
  {
    match v
    case Null => KeywordRoundTrip(NULL_TEXT, rest);
    case Bool(b) => KeywordRoundTrip(Print(v), rest);
    case Str(text) => StringRoundTrip(text, rest);
    case Num(num) => TokenRoundTrip(num, rest);
    case Arr(items) => ArrayRoundTrip(items, rest);
    case Obj(es) => ObjectRoundTrip(es, rest);
  }

  lemma KeywordRoundTrip(text: seq<Byte>, rest: seq<Byte>)
    ensures text <= text + rest && (text + rest)[|text|..] == rest
  {
  }

  lemma {:induction false} TokenRoundTrip(num: Number, rest: seq<Byte>)
    requires WellFormed(Num(num)) && Stops(rest)
    ensures ReadValue(Print(Num(num)) + rest) == Ok(Num(num), rest)
  {
    NumberBytes(num);
    NumberRoundTrip(num);
    var token := PrintNumber(num);
    NumberLengthExact(token, rest);
    assert (token + rest)[..|token|] == token && (token + rest)[|token|..] == rest;
  }

  lemma Enclosed(open: Byte, body: seq<Byte>, close: Byte, rest: seq<Byte>)
    ensures var s := [open] + body + [close] + rest;
            && |s| > 1 && s[0] == open
            && s[1..] == body + ([close] + rest)
            && (body == [] ==> s[1] == close && s[2..] == rest)
            && (body != [] ==> s[1] == body[0])
  {
  }

  lemma {:induction false} ReadArrayContent(s: seq<Byte>, items: seq<Json>, rest: seq<Byte>)
    requires |s| > 1 && s[0] == OPEN_BRACKET && s[1] != CLOSE_BRACKET
    requires ReadItems(s[1..]) == Ok(items, rest)
    ensures ReadValue(s) == Ok(Arr(items), rest)
  {
  }

  lemma {:induction false} ArrayRoundTrip(items: seq<Json>, rest: seq<Byte>)
    requires WellFormed(Arr(items))
    ensures ReadValue(Print(Arr(items)) + rest) == Ok(Arr(items), rest)
    decreases items, 1
  {
    Enclosed(OPEN_BRACKET, PrintItems(items), CLOSE_BRACKET, rest);
    if items != [] {
      PrintStarts(items[0]);
      ItemsRoundTrip(items, rest);
      ReadArrayContent(Print(Arr(items)) + rest, items, rest);
    }
  }

  lemma {:induction false} ReadObjectContent(s: seq<Byte>, es: seq<Entry>, rest: seq<Byte>)
    requires |s| > 1 && s[0] == OPEN_BRACE && s[1] != CLOSE_BRACE
    requires ReadMembers(s[1..]) == Ok(es, rest)
    ensures ReadValue(s) == Ok(Obj(es), rest)
  {
  }

  lemma {:induction false} ObjectRoundTrip(es: seq<Entry>, rest: seq<Byte>)
    requires WellFormed(Obj(es))
    ensures ReadValue(Print(Obj(es)) + rest) == Ok(Obj(es), rest)
    decreases es, 1
  {
    Enclosed(OPEN_BRACE, PrintMembers(es), CLOSE_BRACE, rest);
    if es != [] {
      MembersStart(es);
      MembersRoundTrip(es, rest);
      ReadObjectContent(Print(Obj(es)) + rest, es, rest);
    }
  }

  lemma {:induction false} MembersStart(es: seq<Entry>)
    requires es != []
    ensures PrintMembers(es) != [] && PrintMembers(es)[0] == QUOTE
  {
    assert PrintMember(es[0])[0] == QUOTE;
  }

  lemma {:induction false} ReadItemsEnds(s: seq<Byte>, v: Json, rest: seq<Byte>)
    requires ReadValue(s) == Ok(v, [CLOSE_BRACKET] + rest)
    ensures ReadItems(s) == Ok([v], rest)
  {
  }

  lemma {:induction false} ReadItemsGoesOn(s: seq<Byte>, v: Json, tail: seq<Byte>, vs: seq<Json>, rest: seq<Byte>)
    requires ReadValue(s) == Ok(v, [COMMA] + tail)
    requires ReadItems(tail) == Ok(vs, rest)
    ensures ReadItems(s) == Ok([v] + vs, rest)
  {
    assert ([COMMA] + tail)[1..] == tail;
  }

  lemma Reassociate(a: seq<Byte>, b: seq<Byte>, c: seq<Byte>, d: seq<Byte>)
    ensures a + b + c + d == a + (b + (c + d))
  {
  }

  lemma {:induction false} ItemsText(items: seq<Json>, after: seq<Byte>)
    requires |items| > 1
    ensures PrintItems(items) + after == Print(items[0]) + ([COMMA] + (PrintItems(items[1..]) + after))
  {
    Reassociate(Print(items[0]), [COMMA], PrintItems(items[1..]), after);
  }

  lemma {:induction false} MembersText(es: seq<Entry>, after: seq<Byte>)
    requires |es| > 1
    ensures PrintMembers(es) + after == PrintMember(es[0]) + ([COMMA] + (PrintMembers(es[1..]) + after))
  {
    Reassociate(PrintMember(es[0]), [COMMA], PrintMembers(es[1..]), after);
  }

  lemma {:induction false} LastItem(items: seq<Json>, after: seq<Byte>, rest: seq<Byte>)
    requires |items| == 1 && after == [CLOSE_BRACKET] + rest
    requires ReadValue(Print(items[0]) + after) == Ok(items[0], after)
    ensures ReadItems(PrintItems(items) + after) == Ok(items, rest)
  {
    assert PrintItems(items) == Print(items[0]);
    ReadItemsEnds(PrintItems(items) + after, items[0], rest);
    assert [items[0]] == items;
  }

  lemma {:induction false} FirstItem(items: seq<Json>, after: seq<Byte>, tail: seq<Byte>, rest: seq<Byte>)
    requires |items| > 1 && tail == PrintItems(items[1..]) + after
    requires ReadValue(Print(items[0]) + ([COMMA] + tail)) == Ok(items[0], [COMMA] + tail)
    requires ReadItems(tail) == Ok(items[1..], rest)
    ensures ReadItems(PrintItems(items) + after) == Ok(items, rest)
  {
    ItemsText(items, after);
    ReadItemsGoesOn(PrintItems(items) + after, items[0], tail, items[1..], rest);
    assert [items[0]] + items[1..] == items;
  }

  lemma {:induction false} ItemsRoundTrip(items: seq<Json>, rest: seq<Byte>)
    requires items != [] && WellFormed(Arr(items))
    ensures ReadItems(PrintItems(items) + ([CLOSE_BRACKET] + rest)) == Ok(items, rest)
    decreases items, 0
  {
    var after := [CLOSE_BRACKET] + rest;
    if |items| == 1 {
      ValueRoundTrip(items[0], after);
      LastItem(items, after, rest);
    } else {
      var tail := PrintItems(items[1..]) + after;
      ValueRoundTrip(items[0], [COMMA] + tail);
      ItemsRoundTrip(items[1..], rest);
      FirstItem(items, after, tail, rest);
    }
  }

  lemma {:induction false} MemberRoundTrip(e: Entry, rest: seq<Byte>)
    requires WellFormed(e.value) && Stops(rest)
    ensures ReadMember(PrintMember(e) + rest) == Ok(e, rest)
    decreases e, 2
  {
    var tail := Print(e.value) + rest;
    Reassociate(PrintString(e.key), [COLON], Print(e.value), rest);
    StringRoundTrip(e.key, [COLON] + tail);
    ValueRoundTrip(e.value, rest);
    ReadMemberSteps(PrintMember(e) + rest, e, tail, rest);
  }

  lemma {:induction false} ReadMemberSteps(s: seq<Byte>, e: Entry, tail: seq<Byte>, rest: seq<Byte>)
    requires ReadString(s) == Ok(e.key, [COLON] + tail)
    requires ReadValue(tail) == Ok(e.value, rest)
    ensures ReadMember(s) == Ok(e, rest)
  {
    assert ([COLON] + tail)[1..] == tail;
  }

  lemma {:induction false} ReadMembersEnds(s: seq<Byte>, e: Entry, rest: seq<Byte>)
    requires ReadMember(s) == Ok(e, [CLOSE_BRACE] + rest)
    ensures ReadMembers(s) == Ok([e], rest)
  {
  }

  lemma {:induction false} ReadMembersGoesOn(s: seq<Byte>, e: Entry, tail: seq<Byte>, es: seq<Entry>, rest: seq<Byte>)
    requires ReadMember(s) == Ok(e, [COMMA] + tail)
    requires ReadMembers(tail) == Ok(es, rest)
    ensures ReadMembers(s) == Ok([e] + es, rest)
  {
    assert ([COMMA] + tail)[1..] == tail;
  }

  lemma TailWellFormed(es: seq<Entry>)
    requires es != [] && WellFormed(Obj(es))
    ensures WellFormed(es[0].value) && WellFormed(Obj(es[1..]))
  {
  }

  lemma {:induction false} LastMember(es: seq<Entry>, after: seq<Byte>, rest: seq<Byte>)
    requires |es| == 1 && after == [CLOSE_BRACE] + rest
    requires ReadMember(PrintMember(es[0]) + after) == Ok(es[0], after)
    ensures ReadMembers(PrintMembers(es) + after) == Ok(es, rest)
  {
    assert PrintMembers(es) == PrintMember(es[0]);
    ReadMembersEnds(PrintMembers(es) + after, es[0], rest);
    assert [es[0]] == es;
  }

  lemma {:induction false} FirstMember(es: seq<Entry>, after: seq<Byte>, tail: seq<Byte>, rest: seq<Byte>)
    requires |es| > 1 && tail == PrintMembers(es[1..]) + after
    requires ReadMember(PrintMember(es[0]) + ([COMMA] + tail)) == Ok(es[0], [COMMA] + tail)
    requires ReadMembers(tail) == Ok(es[1..], rest)
    ensures ReadMembers(PrintMembers(es) + after) == Ok(es, rest)
  {
    MembersText(es, after);
    ReadMembersGoesOn(PrintMembers(es) + after, es[0], tail, es[1..], rest);
    assert [es[0]] + es[1..] == es;
  }

  lemma {:induction false} MembersRoundTrip(es: seq<Entry>, rest: seq<Byte>)
    requires es != [] && WellFormed(Obj(es))
    ensures ReadMembers(PrintMembers(es) + ([CLOSE_BRACE] + rest)) == Ok(es, rest)
    decreases es, 0
  {
    var after := [CLOSE_BRACE] + rest;
    if |es| == 1 {
      MemberRoundTrip(es[0], after);
      LastMember(es, after, rest);
    } else {
      var tail := PrintMembers(es[1..]) + after;
      MemberRoundTrip(es[0], [COMMA] + tail);
      TailWellFormed(es);
      MembersRoundTrip(es[1..], rest);
      FirstMember(es, after, tail, rest);
    }
  }

  // ---------------------------------------------------------------- what the bytes decide

  /** Reading canonical bytes recovers the payload with its keys sorted. */
  lemma {:induction false} CanonicalRoundTrip(v: Json)
    requires WellFormed(v)
    ensures ReadValue(CanonicalBytes(v)) == Ok(Normalize(v), [])
  {
    NormalizeKeepsWellFormed(v);
    ValueRoundTrip(Normalize(v), []);
    assert CanonicalBytes(v) + [] == CanonicalBytes(v);
  }

  /** Two payloads have the same canonical bytes exactly when they are equal up to key order. */
  lemma {:induction false} CanonicalDecidesSameness(v: Json, w: Json)
    requires WellFormed(v) && WellFormed(w)
    ensures CanonicalBytes(v) == CanonicalBytes(w) <==> SameJson(v, w)
  {
    CanonicalRoundTrip(v);
    CanonicalRoundTrip(w);
    NormalFormDecidesSameness(v, w);
  }
}
