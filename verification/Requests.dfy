/** A stored request and the fingerprint that `ingest` computed for it. */
module Requests {
  import opened Fingerprint
  import opened Schema

  /** The content was fingerprinted as `ingest` does it. */
  ghost predicate Fingerprinted(hash: Hash, c: Content) {
    && Hashable(c.source, c.eventType, c.payload)
    && c.fingerprint == hash(Preimage(c.source, c.eventType, c.payload))
  }

  ghost predicate SameContentRequest(a: Content, b: Content) {
    SameRequest(a.source, a.eventType, a.payload, b.source, b.eventType, b.payload)
  }

  ghost predicate NoContentCollision(hash: Hash, a: Content, b: Content) {
    NoCollision(hash, Preimage(a.source, a.eventType, a.payload), Preimage(b.source, b.eventType, b.payload))
  }

  lemma SameFingerprint(hash: Hash, a: Content, b: Content)
    requires Fingerprinted(hash, a) && Fingerprinted(hash, b)
    ensures SameContentRequest(a, b) ==> a.fingerprint == b.fingerprint
    ensures NoContentCollision(hash, a, b) ==> (a.fingerprint == b.fingerprint <==> SameContentRequest(a, b))
  {
    FingerprintDecidesRequest(hash, a.source, a.eventType, a.payload, b.source, b.eventType, b.payload);
  }
}
