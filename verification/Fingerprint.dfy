/**
 The request fingerprint: a hash over length-prefixed fields.  The hash is a parameter;
 everything proved here is about what is fed to it.
 */
module Fingerprint {
  import opened Utf8
  import opened JsonModel
  import opened Canonical
  import opened JsonParser

  /** The ASCII text `pulsestream.request-fingerprint.v1`. */
  const VERSION: seq<Byte> := [
    0x70, 0x75, 0x6C, 0x73, 0x65, 0x73, 0x74, 0x72, 0x65, 0x61, 0x6D, 0x2E,
    0x72, 0x65, 0x71, 0x75, 0x65, 0x73, 0x74, 0x2D, 0x66, 0x69, 0x6E, 0x67,
    0x65, 0x72, 0x70, 0x72, 0x69, 0x6E, 0x74, 0x2E, 0x76, 0x31
  ]

  /** Lengths are written as `u64`. */
  const LENGTH_LIMIT := 0x1_0000_0000_0000_0000

  type Hash = seq<Byte> -> seq<Byte>

  function BigEndian(n: nat, width: nat): (r: seq<Byte>)
    ensures |r| == width
  {
    if width == 0 then [] else BigEndian(n / 256, width - 1) + [n % 256]
  }

  function FromBigEndian(bs: seq<int>): int {
    if bs == [] then 0 else FromBigEndian(bs[..|bs| - 1]) * 256 + bs[|bs| - 1]
  }

  function Power256(width: nat): nat {
    if width == 0 then 1 else 256 * Power256(width - 1)
  }

  lemma {:induction false} BigEndianRoundTrip(n: nat, width: nat)
    requires n < Power256(width)
    ensures FromBigEndian(BigEndian(n, width)) == n
  {
    if width > 0 {
      BigEndianRoundTrip(n / 256, width - 1);
      assert BigEndian(n, width)[..width - 1] == BigEndian(n / 256, width - 1);
    }
  }

  lemma {:induction false} LengthRoundTrip(n: nat)
    requires n < LENGTH_LIMIT
    ensures FromBigEndian(BigEndian(n, 8)) == n
  {
    assert Power256(4) == 0x1_0000_0000;
    assert Power256(8) == 0x1_0000_0000 * Power256(4);
    BigEndianRoundTrip(n, 8);
  }

  function Frame(part: seq<Byte>): seq<Byte> {
    BigEndian(|part|, 8) + part
  }

  function Frames(parts: seq<seq<Byte>>): seq<Byte> {
    if parts == [] then [] else Frame(parts[0]) + Frames(parts[1..])
  }

  predicate Framable(parts: seq<seq<Byte>>) {
    forall i | 0 <= i < |parts| :: |parts[i]| < LENGTH_LIMIT
  }

  lemma FirstFrame(p: seq<Byte>, s: seq<Byte>, q: seq<Byte>, t: seq<Byte>)
    requires |p| < LENGTH_LIMIT && |q| < LENGTH_LIMIT
    requires Frame(p) + s == Frame(q) + t
    ensures p == q && s == t
  {
    var whole := Frame(p) + s;
    assert whole[..8] == BigEndian(|p|, 8) == BigEndian(|q|, 8);
    LengthRoundTrip(|p|);
    LengthRoundTrip(|q|);
    assert whole[8..8 + |p|] == p == q;
    assert whole[8 + |p|..] == s == t;
  }

  /** No shift of bytes between fields can produce the same framing. */
  lemma {:induction false} FramesInjective(ps: seq<seq<Byte>>, qs: seq<seq<Byte>>)
    requires |ps| == |qs| && Framable(ps) && Framable(qs)
    requires Frames(ps) == Frames(qs)
    ensures ps == qs
  {
    if ps != [] {
      FirstFrame(ps[0], Frames(ps[1..]), qs[0], Frames(qs[1..]));
      FramesInjective(ps[1..], qs[1..]);
      assert ps == [ps[0]] + ps[1..] && qs == [qs[0]] + qs[1..];
    }
  }

  function Parts(source: string, eventType: string, payload: Json): seq<seq<Byte>> {
    [VERSION, Encode(source), Encode(eventType), CanonicalBytes(payload)]
  }

  /** Everything the hash sees. */
  function Preimage(source: string, eventType: string, payload: Json): seq<Byte> {
    Frames(Parts(source, eventType, payload))
  }

  predicate Hashable(source: string, eventType: string, payload: Json) {
    WellFormed(payload) && Framable(Parts(source, eventType, payload))
  }

  /** The same request: equal labels, and payloads equal up to key order. */
  ghost predicate SameRequest(s1: string, t1: string, v1: Json, s2: string, t2: string, v2: Json) {
    s1 == s2 && t1 == t2 && SameJson(v1, v2)
  }

  /** What is hashed determines the request exactly, up to the order of object keys. */
  lemma PreimageDecidesRequest(s1: string, t1: string, v1: Json, s2: string, t2: string, v2: Json)
    requires Hashable(s1, t1, v1) && Hashable(s2, t2, v2)
    ensures Preimage(s1, t1, v1) == Preimage(s2, t2, v2) <==> SameRequest(s1, t1, v1, s2, t2, v2)
  {
    CanonicalDecidesSameness(v1, v2);
    if Preimage(s1, t1, v1) == Preimage(s2, t2, v2) {
      var ps, qs := Parts(s1, t1, v1), Parts(s2, t2, v2);
      FramesInjective(ps, qs);
      assert ps[1] == qs[1] && ps[2] == qs[2] && ps[3] == qs[3];
      Injective(s1, s2);
      Injective(t1, t2);
    }
  }

  /** Two inputs are not a collision of the hash. */
  predicate NoCollision(hash: Hash, a: seq<Byte>, b: seq<Byte>) {
    hash(a) == hash(b) ==> a == b
  }

  /** Equal requests have equal fingerprints; unless the hash collides, no others do. */
  lemma FingerprintDecidesRequest(hash: Hash, s1: string, t1: string, v1: Json, s2: string, t2: string, v2: Json)
    requires Hashable(s1, t1, v1) && Hashable(s2, t2, v2)
    ensures SameRequest(s1, t1, v1, s2, t2, v2) ==>
              hash(Preimage(s1, t1, v1)) == hash(Preimage(s2, t2, v2))
    ensures NoCollision(hash, Preimage(s1, t1, v1), Preimage(s2, t2, v2)) ==>
              (hash(Preimage(s1, t1, v1)) == hash(Preimage(s2, t2, v2)) <==> SameRequest(s1, t1, v1, s2, t2, v2))
  {
    PreimageDecidesRequest(s1, t1, v1, s2, t2, v2);
  }

  // ---------------------------------------------------------------- the source's computation

  /** An incremental hasher: what matters of it is the bytes absorbed so far. */
  class Hasher {
    var absorbed: seq<Byte>

    constructor ()
      ensures absorbed == []
    {
      absorbed := [];
    }

    method Update(bs: seq<Byte>)
      modifies this
      ensures absorbed == old(absorbed) + bs
    {
      absorbed := absorbed + bs;
    }
  }

  lemma {:induction false} FramesAppend(parts: seq<seq<Byte>>, part: seq<Byte>)
    ensures Frames(parts + [part]) == Frames(parts) + Frame(part)
  {
    if parts != [] {
      assert (parts + [part])[1..] == parts[1..] + [part];
      FramesAppend(parts[1..], part);
    } else {
      assert parts + [part] == [part];
      assert Frames([]) == [];
    }
  }

  method Absorb(hasher: Hasher, part: seq<Byte>)
    modifies hasher
    ensures hasher.absorbed == old(hasher.absorbed) + Frame(part)
  {
    hasher.Update(BigEndian(|part|, 8));
    hasher.Update(part);
  }

  method AbsorbAll(hasher: Hasher, parts: seq<seq<Byte>>)
    requires hasher.absorbed == []
    modifies hasher
    ensures hasher.absorbed == Frames(parts)
  {
    for i := 0 to |parts|
      invariant hasher.absorbed == Frames(parts[..i])
    {
      Absorb(hasher, parts[i]);
      FramesAppend(parts[..i], parts[i]);
      assert parts[..i + 1] == parts[..i] + [parts[i]];
    }
    assert parts[..|parts|] == parts;
  }

  /** `RequestFingerprint::compute`. */
  method Compute(hash: Hash, source: string, eventType: string, payload: Json) returns (fingerprint: seq<Byte>)
    ensures fingerprint == hash(Preimage(source, eventType, payload))
  {
    var hasher := new Hasher();
    var labels: seq<seq<Byte>> := [VERSION, Encode(source), Encode(eventType)];
    AbsorbAll(hasher, labels);
    var canonical := new ByteBuffer();
    WriteCanonical(payload, canonical);
    assert canonical.data == CanonicalBytes(payload);
    Absorb(hasher, canonical.data);
    FramesAppend(labels, canonical.data);
    assert labels + [canonical.data] == Parts(source, eventType, payload);
    fingerprint := hash(hasher.absorbed);
  }
}
