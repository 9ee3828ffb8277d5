/**
 Positive and negative zero.  `serde_json` holds `0.0` and `-0.0` equal but prints them differently,
 so payloads that are equal as values can have different fingerprints: exactly when they hold
 opposite zeros at one place.
 */
module Zeros {
  import opened Utf8
  import opened JsonModel
  import opened Canonical
  import opened JsonParser

  /** The texts `0.0` and `-0.0`. */
  const POSITIVE_ZERO: seq<Byte> := [0x30, 0x2E, 0x30]
  const NEGATIVE_ZERO: seq<Byte> := [0x2D, 0x30, 0x2E, 0x30]

  predicate IsZero(n: Number) {
    n == Float(POSITIVE_ZERO) || n == Float(NEGATIVE_ZERO)
  }

  /** Equality of numbers as values: of finite doubles, only the two zeros are equal and print differently. */
  predicate SameNumber(a: Number, b: Number) {
    a == b || (IsZero(a) && IsZero(b))
  }

  /** Equal as values, up to the order of object keys. */
  ghost predicate SameValue(v: Json, w: Json)
    decreases v
  {
    match (v, w)
    case (Num(a), Num(b)) => SameNumber(a, b)
    case (Arr(xs), Arr(ys)) => |xs| == |ys| && forall i | 0 <= i < |xs| :: SameValue(xs[i], ys[i])
    case (Obj(es), Obj(fs)) =>
      && (forall i | 0 <= i < |es| :: HasKey(fs, es[i].key))
      && (forall i | 0 <= i < |fs| :: HasKey(es, fs[i].key))
      && (forall i, j | 0 <= i < |es| && 0 <= j < |fs| && es[i].key == fs[j].key :: SameValue(es[i].value, fs[j].value))
    case _ => v == w
  }

  /** At some place one payload holds `0.0` and the other `-0.0`. */
  ghost predicate OppositeZeros(v: Json, w: Json)
    decreases v
  {
    match (v, w)
    case (Num(a), Num(b)) => a != b && IsZero(a) && IsZero(b)
    case (Arr(xs), Arr(ys)) => exists i :: 0 <= i < |xs| && i < |ys| && OppositeZeros(xs[i], ys[i])
    case (Obj(es), Obj(fs)) =>
      exists i, j :: 0 <= i < |es| && 0 <= j < |fs| && es[i].key == fs[j].key && OppositeZeros(es[i].value, fs[j].value)
    case _ => false
  }

  /** Same up to key order means equal as values with no opposite zeros, at every depth. */
  lemma {:induction false} SameExceptZeros(v: Json, w: Json)
    ensures SameJson(v, w) <==> SameValue(v, w) && !OppositeZeros(v, w)
    decreases v
  {
    match (v, w)
    case (Arr(xs), Arr(ys)) => ItemsExceptZeros(xs, ys);
    case (Obj(es), Obj(fs)) => EntriesExceptZeros(es, fs);
    case _ =>
  }

  lemma {:induction false} ItemsExceptZeros(xs: seq<Json>, ys: seq<Json>)
    ensures SameJson(Arr(xs), Arr(ys)) <==> SameValue(Arr(xs), Arr(ys)) && !OppositeZeros(Arr(xs), Arr(ys))
    decreases xs
  {
    forall i | 0 <= i < |xs| && i < |ys|
      ensures SameJson(xs[i], ys[i]) <==> SameValue(xs[i], ys[i]) && !OppositeZeros(xs[i], ys[i])
    {
      SameExceptZeros(xs[i], ys[i]);
    }
  }

  lemma {:induction false} EntriesExceptZeros(es: seq<Entry>, fs: seq<Entry>)
    ensures SameJson(Obj(es), Obj(fs)) <==> SameValue(Obj(es), Obj(fs)) && !OppositeZeros(Obj(es), Obj(fs))
    decreases es
  {
    forall i, j | 0 <= i < |es| && 0 <= j < |fs|
      ensures SameJson(es[i].value, fs[j].value) <==>
                SameValue(es[i].value, fs[j].value) && !OppositeZeros(es[i].value, fs[j].value)
    {
      SameExceptZeros(es[i].value, fs[j].value);
    }
  }

  /** Payloads that are equal as values have the same canonical bytes if and only if they hold no opposite zeros. */
  lemma {:induction false} ZerosDecideBytes(v: Json, w: Json)
    requires WellFormed(v) && WellFormed(w) && SameValue(v, w)
    ensures CanonicalBytes(v) == CanonicalBytes(w) <==> !OppositeZeros(v, w)
  {
    CanonicalDecidesSameness(v, w);
    SameExceptZeros(v, w);
  }

  /** And there are such payloads with different bytes. */
  lemma ZerosPrintApart()
    ensures var v, w := Num(Float(POSITIVE_ZERO)), Num(Float(NEGATIVE_ZERO));
            && WellFormed(v) && WellFormed(w) && SameValue(v, w)
            && CanonicalBytes(v) != CanonicalBytes(w)
  {
    var v, w := Num(Float(POSITIVE_ZERO)), Num(Float(NEGATIVE_ZERO));
    assert MarksFloat(POSITIVE_ZERO[1]) && MarksFloat(NEGATIVE_ZERO[2]);
    assert OppositeZeros(v, w);
    ZerosDecideBytes(v, w);
  }
}
