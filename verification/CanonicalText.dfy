/**
 The canonical bytes and the hashed bytes, spelled out as text.  Stored fingerprints must stay
 comparable, so it matters which text is hashed and not only that it can be read back.
 */
module CanonicalText {
  import opened Utf8
  import opened JsonModel
  import opened Canonical
  import opened Fingerprint

  // ---------------------------------------------------------------- ASCII text

  predicate IsAscii(s: string) {
    forall i | 0 <= i < |s| :: s[i] as int < 0x80
  }

  function Ascii(s: string): (r: seq<Byte>)
    requires IsAscii(s)
    ensures |r| == |s| && forall i | 0 <= i < |s| :: r[i] == s[i] as int
  {
    seq(|s|, i requires 0 <= i < |s| => s[i] as int)
  }

  /** The UTF-8 form of ASCII text is the text, byte for byte. */
  lemma {:induction false} AsciiIsEncoded(s: string)
    requires IsAscii(s)
    ensures Encode(s) == Ascii(s)
  {
    if s != [] {
      AsciiIsEncoded(s[1..]);
      assert EncodeChar(s[0]) == [s[0] as int];
    }
  }

  // ---------------------------------------------------------------- literals and punctuation

  function LiteralOf(v: Json): string
    requires v.Null? || v.Bool?
  {
    if v.Null? then "null" else if v.b then "true" else "false"
  }

  lemma LiteralText(v: Json)
    requires v.Null? || v.Bool?
    ensures CanonicalBytes(v) == Encode(LiteralOf(v))
  {
    assert IsAscii(LiteralOf(v)) && Print(v) == Ascii(LiteralOf(v));
    AsciiIsEncoded(LiteralOf(v));
  }

  // ---------------------------------------------------------------- strings

  const HEX := "0123456789abcdef"

  /** One character inside a JSON string, as section 7 of RFC 8259 lets it be written. */
  function EscapedChar(c: char): (r: string)
    ensures r != []
  {
    if c == '\"' then "\\\""
    else if c == '\\' then "\\\\"
    else if c as int == 8 then "\\b"
    else if c as int == 9 then "\\t"
    else if c as int == 10 then "\\n"
    else if c as int == 12 then "\\f"
    else if c as int == 13 then "\\r"
    else if c as int < 16 then "\\u000" + [HEX[c as int]]
    else if c as int < 32 then "\\u001" + [HEX[c as int - 16]]
    else [c]
  }

  function EscapedText(s: string): string {
    if s == [] then "" else EscapedChar(s[0]) + EscapedText(s[1..])
  }

  lemma FirstOfTwo<T>(a: seq<T>, b: seq<T>)
    requires a != []
    ensures (a + b)[0] == a[0] && (a + b)[1..] == a[1..] + b
  {
  }

  /** If `whole` begins like `part`, and goes on with what follows it, it is both together. */
  lemma Together(whole: seq<Byte>, part: seq<Byte>, first: seq<Byte>, rest: seq<Byte>, last: seq<Byte>)
    requires whole == first + (rest + last) && part == first + rest
    ensures whole == part + last
  {
  }

  lemma {:induction false} EncodeJoins(a: string, b: string)
    ensures Encode(a + b) == Encode(a) + Encode(b)
  {
    if a == [] {
      assert a + b == b;
    } else {
      FirstOfTwo(a, b);
      EncodeJoins(a[1..], b);
      Together(Encode(a + b), Encode(a), EncodeChar(a[0]), Encode(a[1..]), Encode(b));
    }
  }

  lemma {:induction false} EscapeJoins(a: seq<Byte>, b: seq<Byte>)
    ensures Escape(a + b) == Escape(a) + Escape(b)
  {
    if a == [] {
      assert a + b == b;
    } else {
      FirstOfTwo(a, b);
      EscapeJoins(a[1..], b);
      Together(Escape(a + b), Escape(a), EscapeByte(a[0]), Escape(a[1..]), Escape(b));
    }
  }

  lemma {:induction false} HighBytesStay(bs: seq<Byte>)
    requires forall i | 0 <= i < |bs| :: bs[i] >= 0x80
    ensures Escape(bs) == bs
  {
    if bs != [] {
      HighBytesStay(bs[1..]);
    }
  }

  lemma HexText(n: nat)
    requires n < 16
    ensures HEX[n] as int == HexDigit(n)
  {
  }

  lemma UnicodeText(prefix: string, high: Byte, low: nat)
    requires low < 16 && ((prefix == "\\u000" && high == 0x30) || (prefix == "\\u001" && high == 0x31))
    ensures IsAscii(prefix + [HEX[low]])
    ensures Ascii(prefix + [HEX[low]]) == [BACKSLASH, 0x75, 0x30, 0x30, high, HexDigit(low)]
  {
    HexText(low);
  }

  lemma ControlText(c: char)
    requires c as int < 32
    ensures IsAscii(EscapedChar(c)) && EscapeByte(c as int) == Ascii(EscapedChar(c))
  {
    var n := c as int;
    if n == 8 || n == 9 || n == 10 || n == 12 || n == 13 {
      assert |EscapedChar(c)| == 2;
    } else if n < 16 {
      UnicodeText("\\u000", 0x30, n);
    } else {
      UnicodeText("\\u001", 0x31, n - 16);
    }
  }

  lemma {:induction false} CharText(c: char)
    ensures Escape(EncodeChar(c)) == Encode(EscapedChar(c))
  {
    if c as int < 0x80 {
      assert EncodeChar(c) == [c as int];
      assert Escape([c as int]) == EscapeByte(c as int) + Escape([]);
      if c as int < 32 {
        ControlText(c);
      }
      AsciiIsEncoded(EscapedChar(c));
    } else {
      HighBytesStay(EncodeChar(c));
      assert Encode([c]) == EncodeChar(c) + Encode([]);
    }
  }

  /** Escaping the UTF-8 bytes is escaping the characters. */
  lemma {:induction false} EscapeIsText(s: string)
    ensures Escape(Encode(s)) == Encode(EscapedText(s))
  {
    if s != [] {
      EscapeJoins(EncodeChar(s[0]), Encode(s[1..]));
      CharText(s[0]);
      EscapeIsText(s[1..]);
      EncodeJoins(EscapedChar(s[0]), EscapedText(s[1..]));
    }
  }

  function Quoted(s: string): string {
    "\"" + s + "\""
  }

  lemma {:induction false} StringText(s: string)
    ensures CanonicalBytes(Str(s)) == Encode(Quoted(EscapedText(s)))
  {
    EscapeIsText(s);
    var q, t := "\"", EscapedText(s);
    AsciiIsEncoded(q);
    assert Quoted(t) == q + t + q;
    EncodeJoins(q + t, q);
    EncodeJoins(q, t);
  }

  // ---------------------------------------------------------------- numbers

  const DIGITS := "0123456789"

  function NatText(n: nat): string {
    if n < 10 then [DIGITS[n]] else NatText(n / 10) + [DIGITS[n % 10]]
  }

  function IntText(n: int): string {
    if n < 0 then "-" + NatText(-n) else NatText(n)
  }

  lemma DigitText(n: nat)
    requires n < 10
    ensures Encode([DIGITS[n]]) == [0x30 + n]
  {
    AsciiIsEncoded([DIGITS[n]]);
  }

  lemma {:induction false} NatIsText(n: nat)
    ensures Decimal(n) == Encode(NatText(n))
    ensures NatText(n) != [] && (NatText(n)[0] == '0' ==> n == 0)
  {
    DigitText(n % 10);
    if n >= 10 {
      NatIsText(n / 10);
      EncodeJoins(NatText(n / 10), [DIGITS[n % 10]]);
    }
  }

  /** Integers are plain decimals with no leading zero; a double is the text it prints as. */
  lemma NumberText(num: Number)
    ensures num.Int? ==> CanonicalBytes(Num(num)) == Encode(IntText(num.n))
    ensures num.Float? ==> CanonicalBytes(Num(num)) == num.text
  {
    if num.Int? && num.n < 0 {
      NatIsText(-num.n);
      AsciiIsEncoded("-");
      EncodeJoins("-", NatText(-num.n));
    } else if num.Int? {
      NatIsText(num.n);
    }
  }

  // ---------------------------------------------------------------- arrays and objects

  function Join(parts: seq<seq<Byte>>, sep: seq<Byte>): seq<Byte> {
    if parts == [] then [] else if |parts| == 1 then parts[0] else parts[0] + sep + Join(parts[1..], sep)
  }

  function ItemTexts(items: seq<Json>): (r: seq<seq<Byte>>)
    ensures |r| == |items| && forall i | 0 <= i < |items| :: r[i] == CanonicalBytes(items[i])
  {
    seq(|items|, i requires 0 <= i < |items| => CanonicalBytes(items[i]))
  }

  function MemberText(e: Entry): seq<Byte> {
    CanonicalBytes(Str(e.key)) + Encode(":") + CanonicalBytes(e.value)
  }

  function MemberTexts(es: seq<Entry>): (r: seq<seq<Byte>>)
    ensures |r| == |es| && forall i | 0 <= i < |es| :: r[i] == MemberText(es[i])
  {
    seq(|es|, i requires 0 <= i < |es| => MemberText(es[i]))
  }

  /** The JSON punctuation, as bytes. */
  lemma Punctuation()
    ensures [OPEN_BRACKET] == Encode("[") && [CLOSE_BRACKET] == Encode("]")
    ensures [OPEN_BRACE] == Encode("{") && [CLOSE_BRACE] == Encode("}")
    ensures [COMMA] == Encode(",") && [COLON] == Encode(":")
  {
    AsciiIsEncoded("[");
    AsciiIsEncoded("]");
    AsciiIsEncoded("{");
    AsciiIsEncoded("}");
    AsciiIsEncoded(",");
    AsciiIsEncoded(":");
  }

  lemma {:induction false} ItemsJoin(items: seq<Json>)
    ensures PrintItems(NormalizeItems(items)) == Join(ItemTexts(items), [COMMA])
  {
    if |items| > 1 {
      assert NormalizeItems(items)[1..] == NormalizeItems(items[1..]);
      assert ItemTexts(items)[1..] == ItemTexts(items[1..]);
      ItemsJoin(items[1..]);
    }
  }

  /** An array is its items' texts, in their order, between commas and brackets. */
  lemma ArrayIsText(items: seq<Json>)
    ensures CanonicalBytes(Arr(items)) == Encode("[") + Join(ItemTexts(items), Encode(",")) + Encode("]")
  {
    Punctuation();
    ItemsJoin(items);
  }

  lemma {:induction false} MembersJoin(es: seq<Entry>)
    ensures PrintMembers(NormalizeEntries(es)) == Join(MemberTexts(es), [COMMA])
  {
    Punctuation();
    if |es| > 1 {
      assert NormalizeEntries(es)[1..] == NormalizeEntries(es[1..]);
      assert MemberTexts(es)[1..] == MemberTexts(es[1..]);
      MembersJoin(es[1..]);
    }
  }

  /** Keys in strictly increasing code-point order. */
  ghost predicate InKeyOrder(es: seq<Entry>) {
    forall i, j | 0 <= i < j < |es| :: CodePointsLess(es[i].key, es[j].key)
  }

  lemma InKeyOrderIsSorted(es: seq<Entry>)
    requires InKeyOrder(es)
    ensures Sorted(es)
  {
    forall i, j | 0 <= i < j < |es| ensures KeyLess(es[i].key, es[j].key) {
      BytesOrderIsCodePointOrder(es[i].key, es[j].key);
    }
  }

  /** An object is its members' texts in code-point order of their keys, between commas and braces. */
  lemma ObjectIsText(es: seq<Entry>, ordered: seq<Entry>)
    requires DistinctKeys(es) && InKeyOrder(ordered) && forall e :: e in es <==> e in ordered
    ensures CanonicalBytes(Obj(es)) == Encode("{") + Join(MemberTexts(ordered), Encode(",")) + Encode("}")
  {
    Punctuation();
    InKeyOrderIsSorted(ordered);
    SortSorts(es);
    forall e ensures e in Sort(es) <==> e in ordered {
      InSort(es, e);
    }
    SortedIsUnique(Sort(es), ordered);
    SortNormalizes(es);
    MembersJoin(ordered);
  }

  // ---------------------------------------------------------------- what is hashed

  const VERSION_TEXT := "pulsestream.request-fingerprint.v1"

  lemma VersionBytes(text: string)
    requires text == VERSION_TEXT
    ensures IsAscii(text) && VERSION == Ascii(text)
  {
  }

  lemma {:induction false} VersionText(text: string)
    requires text == VERSION_TEXT
    ensures VERSION == Encode(text)
  {
    VersionBytes(text);
    AsciiIsEncoded(text);
  }

  /** A field with its length before it, in eight bytes, most significant first. */
  ghost predicate IsField(field: seq<Byte>, part: seq<Byte>) {
    |field| == 8 + |part| && FromBigEndian(field[..8]) == |part| && field[8..] == part
  }

  lemma FrameIsField(part: seq<Byte>)
    requires |part| < LENGTH_LIMIT
    ensures IsField(Frame(part), part)
  {
    LengthRoundTrip(|part|);
    var length := BigEndian(|part|, 8);
    assert (length + part)[..8] == length && (length + part)[8..] == part;
  }

  /** The hash sees version, source, type and canonical payload, in this order, each with its length. */
  lemma PreimageText(version: string, source: string, eventType: string, payload: Json)
    returns (fields: seq<seq<Byte>>)
    requires version == VERSION_TEXT && Hashable(source, eventType, payload)
    ensures |fields| == 4 && Preimage(source, eventType, payload) == fields[0] + fields[1] + fields[2] + fields[3]
    ensures IsField(fields[0], Encode(version)) && IsField(fields[1], Encode(source))
    ensures IsField(fields[2], Encode(eventType)) && IsField(fields[3], CanonicalBytes(payload))
  {
    var parts := Parts(source, eventType, payload);
    VersionText(version);
    fields := [Frame(parts[0]), Frame(parts[1]), Frame(parts[2]), Frame(parts[3])];
    FourFrames(parts);
    FrameIsField(parts[0]);
    FrameIsField(parts[1]);
    FrameIsField(parts[2]);
    FrameIsField(parts[3]);
  }

  lemma {:induction false} FourFrames(parts: seq<seq<Byte>>)
    requires |parts| == 4
    ensures Frames(parts) == Frame(parts[0]) + Frame(parts[1]) + Frame(parts[2]) + Frame(parts[3])
  {
    var a, b, c, d := Frame(parts[0]), Frame(parts[1]), Frame(parts[2]), Frame(parts[3]);
    assert Frames(parts[1..][1..][1..]) == d + Frames(parts[1..][1..][1..][1..]);
    assert Frames(parts[1..][1..]) == c + (d + []);
    assert Frames(parts[1..]) == b + (c + (d + []));
    assert a + (b + (c + (d + []))) == a + b + c + d;
  }
}
