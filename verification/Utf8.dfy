/**
 Rust strings as the bytes they are stored in.  A Dafny `char` is a Unicode scalar
 value, so `string` is Rust's `String`; its UTF-8 form follows section 3 of RFC 3629.
 Rust compares strings byte by byte; `BytesOrderIsCodePointOrder` shows that this is
 the code-point order that the fingerprint's documentation promises.
 */
module Utf8 {
  type Byte = b: int | 0 <= b < 256

  datatype Option<+T> = None | Some(value: T)

  function EncodeChar(c: char): (r: seq<Byte>)
    ensures 1 <= |r| <= 4
  {
    var n := c as int;
    if n < 0x80 then [n]
    else if n < 0x800 then [0xC0 + n / 64, Continuation(n)]
    else if n < 0x10000 then [0xE0 + n / 64 / 64, Continuation(n / 64), Continuation(n)]
    else [0xF0 + n / 64 / 64 / 64, Continuation(n / 64 / 64), Continuation(n / 64), Continuation(n)]
  }

  function Continuation(n: nat): Byte {
    0x80 + n % 64
  }

  function Encode(s: string): seq<Byte> {
    if s == [] then [] else EncodeChar(s[0]) + Encode(s[1..])
  }

  predicate IsScalar(n: int) {
    0 <= n < 0xD800 || 0xE000 <= n < 0x11_0000
  }

  /** The number of bytes that a leading byte announces. */
  function LengthFrom(b: Byte): nat {
    if b < 0x80 then 1 else if b < 0xE0 then 2 else if b < 0xF0 then 3 else 4
  }

  /** The number carried by one encoded character; meaningful on what `EncodeChar` writes. */
  function CodeOf(bs: seq<int>): int
    requires 1 <= |bs| <= 4
  {
    if |bs| == 1 then bs[0]
    else if |bs| == 2 then (bs[0] - 0xC0) * 64 + (bs[1] - 0x80)
    else if |bs| == 3 then ((bs[0] - 0xE0) * 64 + (bs[1] - 0x80)) * 64 + (bs[2] - 0x80)
    else (((bs[0] - 0xF0) * 64 + (bs[1] - 0x80)) * 64 + (bs[2] - 0x80)) * 64 + (bs[3] - 0x80)
  }

  function Decode(bs: seq<Byte>): Option<string>
    decreases |bs|
  {
    if bs == [] then Some("") else
    var n := LengthFrom(bs[0]);
    if n > |bs| then None else
    var code := CodeOf(bs[..n]);
    if !IsScalar(code) then None else
    match Decode(bs[n..])
    case None => None
    case Some(rest) => Some([code as char] + rest)
  }

  lemma CharRoundTrip(c: char)
    ensures LengthFrom(EncodeChar(c)[0]) == |EncodeChar(c)|
    ensures CodeOf(EncodeChar(c)) == c as int
    ensures IsScalar(c as int)
  {
  }

  /** Decoding undoes encoding, for every string. */
  lemma {:induction false} RoundTrip(s: string)
    ensures Decode(Encode(s)) == Some(s)
  {
    if s != [] {
      var head, tail := EncodeChar(s[0]), Encode(s[1..]);
      CharRoundTrip(s[0]);
      RoundTrip(s[1..]);
      assert (head + tail)[..|head|] == head;
      assert (head + tail)[|head|..] == tail;
      assert [s[0]] + s[1..] == s;
    }
  }

  lemma {:induction false} Injective(s: string, t: string)
    requires Encode(s) == Encode(t)
    ensures s == t
  {
    RoundTrip(s);
    RoundTrip(t);
  }

  // ---------------------------------------------------------------- ordering

  /** Lexicographic order on bytes: Rust's `Ord` for `str` and `String`. */
  predicate BytesLess(a: seq<Byte>, b: seq<Byte>) {
    b != [] && (a == [] || a[0] < b[0] || (a[0] == b[0] && BytesLess(a[1..], b[1..])))
  }

  /** Lexicographic order on code points. */
  predicate CodePointsLess(a: string, b: string) {
    b != [] && (a == [] || a[0] < b[0] || (a[0] == b[0] && CodePointsLess(a[1..], b[1..])))
  }

  predicate KeyLess(a: string, b: string) {
    BytesLess(Encode(a), Encode(b))
  }

  lemma {:induction false} BytesLessCommonPrefix(p: seq<Byte>, a: seq<Byte>, b: seq<Byte>)
    ensures BytesLess(p + a, p + b) == BytesLess(a, b)
  {
    if p == [] {
      assert p + a == a && p + b == b;
    } else {
      assert (p + a)[1..] == p[1..] + a;
      assert (p + b)[1..] == p[1..] + b;
      BytesLessCommonPrefix(p[1..], a, b);
    }
  }

  /** The first byte at which two encoded characters differ orders them as their code points do. */
  lemma CharOrder(c: char, d: char) returns (k: nat)
    requires c < d
    ensures k < |EncodeChar(c)| && k < |EncodeChar(d)|
    ensures EncodeChar(c)[..k] == EncodeChar(d)[..k]
    ensures EncodeChar(c)[k] < EncodeChar(d)[k]
  {
    var a, b := EncodeChar(c), EncodeChar(d);
    CharRoundTrip(c);
    CharRoundTrip(d);
    if a[0] != b[0] {
      k := 0;
    } else if a[1] != b[1] {
      k := 1;
    } else if a[2] != b[2] {
      k := 2;
    } else {
      k := 3;
    }
  }

  lemma {:induction false} FirstDifferenceDecides(c: char, d: char, s: seq<Byte>, t: seq<Byte>)
    requires c < d
    ensures BytesLess(EncodeChar(c) + s, EncodeChar(d) + t)
    ensures !BytesLess(EncodeChar(d) + t, EncodeChar(c) + s)
  {
    var k := CharOrder(c, d);
    var a, b := EncodeChar(c), EncodeChar(d);
    var p := a[..k];
    assert a + s == p + (a[k..] + s);
    assert b + t == p + (b[k..] + t);
    BytesLessCommonPrefix(p, a[k..] + s, b[k..] + t);
    BytesLessCommonPrefix(p, b[k..] + t, a[k..] + s);
  }

  /** Comparing Rust strings compares their code points. */
  lemma {:induction false} BytesOrderIsCodePointOrder(a: string, b: string)
    ensures KeyLess(a, b) <==> CodePointsLess(a, b)
  {
    if a != [] && b != [] {
      if a[0] < b[0] {
        FirstDifferenceDecides(a[0], b[0], Encode(a[1..]), Encode(b[1..]));
      } else if b[0] < a[0] {
        FirstDifferenceDecides(b[0], a[0], Encode(b[1..]), Encode(a[1..]));
      } else {
        BytesLessCommonPrefix(EncodeChar(a[0]), Encode(a[1..]), Encode(b[1..]));
        BytesOrderIsCodePointOrder(a[1..], b[1..]);
      }
    }
  }

  lemma {:induction false} CodePointsTotal(a: string, b: string)
    ensures a == b || CodePointsLess(a, b) || CodePointsLess(b, a)
    ensures !(CodePointsLess(a, b) && CodePointsLess(b, a))
    ensures !CodePointsLess(a, a)
  {
    if a != [] && b != [] {
      CodePointsTotal(a[1..], b[1..]);
      CodePointsTotal(a[1..], a[1..]);
      if a[0] == b[0] && a[1..] == b[1..] {
        assert a == [a[0]] + a[1..] == b;
      }
    } else if a != [] {
      CodePointsTotal(a[1..], a[1..]);
    }
  }

  lemma {:induction false} CodePointsTransitive(a: string, b: string, c: string)
    requires CodePointsLess(a, b) && CodePointsLess(b, c)
    ensures CodePointsLess(a, c)
  {
    if a != [] && a[0] == b[0] == c[0] {
      CodePointsTransitive(a[1..], b[1..], c[1..]);
    }
  }

  /** The order in which object keys are sorted is a strict total order. */
  lemma KeyOrderTotal(a: string, b: string)
    ensures a == b || KeyLess(a, b) || KeyLess(b, a)
    ensures !(KeyLess(a, b) && KeyLess(b, a))
    ensures !KeyLess(a, a)
  {
    BytesOrderIsCodePointOrder(a, b);
    BytesOrderIsCodePointOrder(b, a);
    BytesOrderIsCodePointOrder(a, a);
    CodePointsTotal(a, b);
  }

  lemma KeyOrderTransitive(a: string, b: string, c: string)
    requires KeyLess(a, b) && KeyLess(b, c)
    ensures KeyLess(a, c)
  {
    BytesOrderIsCodePointOrder(a, b);
    BytesOrderIsCodePointOrder(b, c);
    BytesOrderIsCodePointOrder(a, c);
    CodePointsTransitive(a, b, c);
  }
}
