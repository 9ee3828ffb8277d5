/**
 The canonical payload bytes: compact JSON text of the normal form.  `Print` is the text
 of a value as it stands; `WriteCanonical` is the source's recursive writer, which sorts
 each object before writing it.
 */
module Canonical {
  import opened Utf8
  import opened JsonModel

  const QUOTE: Byte := 0x22
  const COMMA: Byte := 0x2C
  const MINUS: Byte := 0x2D
  const COLON: Byte := 0x3A
  const OPEN_BRACKET: Byte := 0x5B
  const BACKSLASH: Byte := 0x5C
  const CLOSE_BRACKET: Byte := 0x5D
  const OPEN_BRACE: Byte := 0x7B
  const CLOSE_BRACE: Byte := 0x7D
  const NULL_TEXT: seq<Byte> := [0x6E, 0x75, 0x6C, 0x6C]
  const TRUE_TEXT: seq<Byte> := [0x74, 0x72, 0x75, 0x65]
  const FALSE_TEXT: seq<Byte> := [0x66, 0x61, 0x6C, 0x73, 0x65]

  function Decimal(n: nat): (r: seq<Byte>)
    ensures r != [] && forall i | 0 <= i < |r| :: IsDigit(r[i])
  {
    if n < 10 then [0x30 + n] else Decimal(n / 10) + [0x30 + n % 10]
  }

  function PrintNumber(num: Number): seq<Byte> {
    match num
    case Int(n) => if n < 0 then [MINUS] + Decimal(-n) else Decimal(n)
    case Float(text) => text
  }

  function HexDigit(n: int): Byte
    requires 0 <= n < 16
  {
    if n < 10 then 0x30 + n else 0x57 + n
  }

  /** Section 7 of RFC 8259, with the short escapes and lower-case hex that serde_json writes. */
  function EscapeByte(b: Byte): (r: seq<Byte>)
    ensures r != []
  {
    if b == QUOTE || b == BACKSLASH then [BACKSLASH, b]
    else if b == 0x08 then [BACKSLASH, 0x62]
    else if b == 0x09 then [BACKSLASH, 0x74]
    else if b == 0x0A then [BACKSLASH, 0x6E]
    else if b == 0x0C then [BACKSLASH, 0x66]
    else if b == 0x0D then [BACKSLASH, 0x72]
    else if b < 0x20 then [BACKSLASH, 0x75, 0x30, 0x30, HexDigit(b / 16), HexDigit(b % 16)]
    else [b]
  }

  function Escape(bs: seq<Byte>): seq<Byte> {
    if bs == [] then [] else EscapeByte(bs[0]) + Escape(bs[1..])
  }

  function PrintString(s: string): seq<Byte> {
    [QUOTE] + Escape(Encode(s)) + [QUOTE]
  }

  function Print(v: Json): seq<Byte> {
    match v
    case Null => NULL_TEXT
    case Bool(b) => if b then TRUE_TEXT else FALSE_TEXT
    case Num(num) => PrintNumber(num)
    case Str(s) => PrintString(s)
    case Arr(items) => [OPEN_BRACKET] + PrintItems(items) + [CLOSE_BRACKET]
    case Obj(es) => [OPEN_BRACE] + PrintMembers(es) + [CLOSE_BRACE]
  }

  function PrintItems(items: seq<Json>): seq<Byte> {
    if items == [] then []
    else if |items| == 1 then Print(items[0])
    else Print(items[0]) + [COMMA] + PrintItems(items[1..])
  }

  function PrintMember(e: Entry): seq<Byte> {
    PrintString(e.key) + [COLON] + Print(e.value)
  }

  function PrintMembers(es: seq<Entry>): seq<Byte> {
    if es == [] then []
    else if |es| == 1 then PrintMember(es[0])
    else PrintMember(es[0]) + [COMMA] + PrintMembers(es[1..])
  }

  /** The bytes that enter the fingerprint. */
  function CanonicalBytes(v: Json): seq<Byte> {
    Print(Normalize(v))
  }

  // ---------------------------------------------------------------- the source's writer

  lemma {:induction false} PrintItemsAppend(items: seq<Json>, x: Json)
    ensures PrintItems(items + [x]) == PrintItems(items) + (if items == [] then [] else [COMMA]) + Print(x)
  {
    if items != [] {
      assert (items + [x])[1..] == items[1..] + [x];
      PrintItemsAppend(items[1..], x);
    }
  }

  lemma {:induction false} PrintMembersAppend(es: seq<Entry>, e: Entry)
    ensures PrintMembers(es + [e]) == PrintMembers(es) + (if es == [] then [] else [COMMA]) + PrintMember(e)
  {
    if es != [] {
      assert (es + [e])[1..] == es[1..] + [e];
      PrintMembersAppend(es[1..], e);
    }
  }

  lemma {:induction false} InsertNormalizes(e: Entry, es: seq<Entry>)
    ensures NormalizeEntries(Insert(e, es))
         == Insert(Entry(e.key, Normalize(e.value)), NormalizeEntries(es))
  {
    if es != [] && !KeyLess(e.key, es[0].key) {
      InsertNormalizes(e, es[1..]);
      assert NormalizeEntries(es)[1..] == NormalizeEntries(es[1..]);
    }
  }

  /** Sorting entries and normalizing their values commute. */
  lemma {:induction false} SortNormalizes(es: seq<Entry>)
    ensures NormalizeEntries(Sort(es)) == Sort(NormalizeEntries(es))
  {
    if es != [] {
      SortNormalizes(es[1..]);
      InsertNormalizes(es[0], Sort(es[1..]));
      assert NormalizeEntries(es)[1..] == NormalizeEntries(es[1..]);
    }
  }

  /** `Vec<u8>`, as far as the writer uses it. */
  class ByteBuffer {
    var data: seq<Byte>

    constructor ()
      ensures data == []
    {
      data := [];
    }

    method Push(b: Byte)
      modifies this
      ensures data == old(data) + [b]
    {
      data := data + [b];
    }

    method Extend(bs: seq<Byte>)
      modifies this
      ensures data == old(data) + bs
    {
      data := data + bs;
    }
  }

  method WriteScalar(v: Json, out: ByteBuffer)
    requires !v.Arr? && !v.Obj?
    modifies out
    ensures out.data == old(out.data) + CanonicalBytes(v)
  {
    out.Extend(Print(v));
  }

  /** Appends the canonical bytes of `v`. */
  method WriteCanonical(v: Json, out: ByteBuffer)
    modifies out
    ensures out.data == old(out.data) + CanonicalBytes(v)
    decreases v
  {
    match v
    case Obj(es) => WriteObject(es, out);
    case Arr(items) => WriteArray(items, out);
    case _ => WriteScalar(v, out);
  }

  function Separator(i: nat): seq<Byte> {
    if i == 0 then [] else [COMMA]
  }

  lemma Regroup(a: seq<Byte>, b: seq<Byte>, c: seq<Byte>, d: seq<Byte>)
    ensures a + b + (c + d) == a + (b + c + d)
  {
  }

  lemma MembersStep(start: seq<Byte>, ns: seq<Entry>, i: nat)
    requires i < |ns|
    ensures start + PrintMembers(ns[..i]) + (Separator(i) + PrintMember(ns[i])) == start + PrintMembers(ns[..i + 1])
  {
    assert ns[..i + 1] == ns[..i] + [ns[i]];
    PrintMembersAppend(ns[..i], ns[i]);
    Regroup(start, PrintMembers(ns[..i]), Separator(i), PrintMember(ns[i]));
  }

  lemma ItemsStep(start: seq<Byte>, ns: seq<Json>, i: nat)
    requires i < |ns|
    ensures start + PrintItems(ns[..i]) + (Separator(i) + Print(ns[i])) == start + PrintItems(ns[..i + 1])
  {
    assert ns[..i + 1] == ns[..i] + [ns[i]];
    PrintItemsAppend(ns[..i], ns[i]);
    Regroup(start, PrintItems(ns[..i]), Separator(i), Print(ns[i]));
  }

  /** Sorts the entries by key, then writes them in that order. */
  method WriteObject(es: seq<Entry>, out: ByteBuffer)
    modifies out
    ensures out.data == old(out.data) + CanonicalBytes(Obj(es))
    decreases es, 1
  {
    var entries := Sort(es);
    ghost var ns := NormalizeEntries(entries);
    ghost var start := out.data + [OPEN_BRACE];
    out.Push(OPEN_BRACE);
    for i := 0 to |entries|
      invariant out.data == start + PrintMembers(ns[..i])
    {
      InSort(es, entries[i]);
      WriteMember(entries[i], i, out, es);
      MembersStep(start, ns, i);
    }
    assert ns[..|entries|] == ns;
    out.Push(CLOSE_BRACE);
    ObjectText(old(out.data), es);
  }

  lemma {:induction false} ObjectText(start: seq<Byte>, es: seq<Entry>)
    ensures start + [OPEN_BRACE] + PrintMembers(NormalizeEntries(Sort(es))) + [CLOSE_BRACE]
         == start + CanonicalBytes(Obj(es))
  {
    SortNormalizes(es);
    var text := PrintMembers(Sort(NormalizeEntries(es)));
    assert start + [OPEN_BRACE] + text + [CLOSE_BRACE] == start + ([OPEN_BRACE] + text + [CLOSE_BRACE]);
  }

  method WriteMember(e: Entry, i: nat, out: ByteBuffer, ghost es: seq<Entry>)
    requires e in es
    modifies out
    ensures out.data == old(out.data) + (Separator(i) + PrintMember(Entry(e.key, Normalize(e.value))))
    decreases es, 0
  {
    if i > 0 {
      out.Push(COMMA);
    }
    WriteScalar(Str(e.key), out);
    out.Push(COLON);
    WriteCanonical(e.value, out);
    MemberText(old(out.data), Separator(i), e);
  }

  lemma MemberText(start: seq<Byte>, sep: seq<Byte>, e: Entry)
    ensures start + sep + CanonicalBytes(Str(e.key)) + [COLON] + CanonicalBytes(e.value)
         == start + (sep + PrintMember(Entry(e.key, Normalize(e.value))))
  {
    var a, b := PrintString(e.key), CanonicalBytes(e.value);
    assert start + sep + a + [COLON] + b == start + (sep + (a + [COLON] + b));
  }

  /** Writes the items in the order they have. */
  method WriteArray(items: seq<Json>, out: ByteBuffer)
    modifies out
    ensures out.data == old(out.data) + CanonicalBytes(Arr(items))
    decreases items, 1
  {
    ghost var ns := NormalizeItems(items);
    ghost var start := out.data + [OPEN_BRACKET];
    out.Push(OPEN_BRACKET);
    for i := 0 to |items|
      invariant out.data == start + PrintItems(ns[..i])
    {
      WriteItem(items[i], i, out, items);
      ItemsStep(start, ns, i);
    }
    assert ns[..|items|] == ns;
    out.Push(CLOSE_BRACKET);
    ArrayText(old(out.data), items);
  }

  lemma {:induction false} ArrayText(start: seq<Byte>, items: seq<Json>)
    ensures start + [OPEN_BRACKET] + PrintItems(NormalizeItems(items)) + [CLOSE_BRACKET]
         == start + CanonicalBytes(Arr(items))
  {
    var text := PrintItems(NormalizeItems(items));
    assert start + [OPEN_BRACKET] + text + [CLOSE_BRACKET] == start + ([OPEN_BRACKET] + text + [CLOSE_BRACKET]);
  }

  method WriteItem(item: Json, i: nat, out: ByteBuffer, ghost items: seq<Json>)
    requires item in items
    modifies out
    ensures out.data == old(out.data) + (Separator(i) + CanonicalBytes(item))
    decreases items, 0
  {
    if i > 0 {
      out.Push(COMMA);
    }
    WriteCanonical(item, out);
  }
}
