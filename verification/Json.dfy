/**
 `serde_json::Value`, the equality that a request fingerprint is meant to decide, and
 the normal form that decides it: every object's entries sorted by key, at every depth.
 */
module JsonModel {
  import opened Utf8

  /** Integers fit `u64` or `i64`.  A finite double is named by the text it prints as. */
  datatype Number = Int(n: int) | Float(text: seq<Byte>)

  datatype Entry = Entry(key: string, value: Json)

  /** An object lists its entries in the map's own iteration order. */
  datatype Json =
    | Null
    | Bool(b: bool)
    | Num(num: Number)
    | Str(s: string)
    | Arr(items: seq<Json>)
    | Obj(entries: seq<Entry>)

  predicate IsDigit(b: Byte) {
    0x30 <= b <= 0x39
  }

  /** Digits, `+`, `-`, `.` and `e`. */
  predicate IsNumberByte(b: Byte) {
    IsDigit(b) || b == 0x2B || b == 0x2D || b == 0x2E || b == 0x65
  }

  predicate MarksFloat(b: Byte) {
    b == 0x2E || b == 0x65
  }

  predicate IsFloatText(t: seq<Byte>) {
    && (forall i | 0 <= i < |t| :: IsNumberByte(t[i]))
    && exists i :: 0 <= i < |t| && MarksFloat(t[i])
  }

  predicate DistinctKeys(es: seq<Entry>) {
    forall i, j | 0 <= i < j < |es| :: es[i].key != es[j].key
  }

  /** What `serde_json` can hold: numbers in range, no key twice in one object. */
  predicate WellFormed(v: Json) {
    match v
    case Num(Int(n)) => -0x8000_0000_0000_0000 <= n < 0x1_0000_0000_0000_0000
    case Num(Float(t)) => IsFloatText(t)
    case Arr(items) => forall i | 0 <= i < |items| :: WellFormed(items[i])
    case Obj(es) => DistinctKeys(es) && forall i | 0 <= i < |es| :: WellFormed(es[i].value)
    case _ => true
  }

  predicate HasKey(es: seq<Entry>, key: string) {
    exists i :: 0 <= i < |es| && es[i].key == key
  }

  /** Equal up to the order of object keys, at every depth; array order counts. */
  ghost predicate SameJson(v: Json, w: Json)
    decreases v
  {
    match (v, w)
    case (Arr(a), Arr(b)) => |a| == |b| && forall i | 0 <= i < |a| :: SameJson(a[i], b[i])
    case (Obj(a), Obj(b)) =>
      && (forall i | 0 <= i < |a| :: HasKey(b, a[i].key))
      && (forall j | 0 <= j < |b| :: HasKey(a, b[j].key))
      && (forall i, j | 0 <= i < |a| && 0 <= j < |b| && a[i].key == b[j].key :: SameJson(a[i].value, b[j].value))
    case _ => v == w
  }

  // ---------------------------------------------------------------- sorting entries by key

  function Insert(e: Entry, es: seq<Entry>): seq<Entry> {
    if es == [] || KeyLess(e.key, es[0].key) then [e] + es
    else [es[0]] + Insert(e, es[1..])
  }

  function Sort(es: seq<Entry>): seq<Entry> {
    if es == [] then [] else Insert(es[0], Sort(es[1..]))
  }

  predicate Sorted(es: seq<Entry>) {
    forall i, j | 0 <= i < j < |es| :: KeyLess(es[i].key, es[j].key)
  }

  lemma {:induction false} InsertKeepsEntries(e: Entry, es: seq<Entry>)
    ensures multiset(Insert(e, es)) == multiset{e} + multiset(es)
  {
    if es != [] && !KeyLess(e.key, es[0].key) {
      InsertKeepsEntries(e, es[1..]);
      assert es == [es[0]] + es[1..];
    }
  }

  lemma {:induction false} SortKeepsEntries(es: seq<Entry>)
    ensures multiset(Sort(es)) == multiset(es)
    ensures |Sort(es)| == |es|
  {
    if es != [] {
      SortKeepsEntries(es[1..]);
      InsertKeepsEntries(es[0], Sort(es[1..]));
      assert es == [es[0]] + es[1..];
    }
    assert |multiset(Sort(es))| == |multiset(es)|;
  }

  lemma {:induction false} InSort(es: seq<Entry>, e: Entry)
    ensures e in Sort(es) <==> e in es
  {
    SortKeepsEntries(es);
    assert e in multiset(Sort(es)) <==> e in multiset(es);
  }

  lemma {:induction false} InsertSorts(e: Entry, es: seq<Entry>)
    requires Sorted(es)
    requires !HasKey(es, e.key)
    ensures Sorted(Insert(e, es))
  {
    if es != [] {
      KeyOrderTotal(e.key, es[0].key);
      if KeyLess(e.key, es[0].key) {
        forall j | 0 < j < |es| ensures KeyLess(e.key, es[j].key) {
          KeyOrderTransitive(e.key, es[0].key, es[j].key);
        }
      } else {
        var rest := Insert(e, es[1..]);
        assert forall i | 0 <= i < |es[1..]| :: es[1..][i] == es[i + 1];
        InsertSorts(e, es[1..]);
        InsertKeepsEntries(e, es[1..]);
        forall j | 0 <= j < |rest| ensures KeyLess(es[0].key, rest[j].key) {
          assert rest[j] in multiset(rest);
          assert rest[j] == e || rest[j] in es[1..];
        }
      }
    }
  }

  lemma {:induction false} SortSorts(es: seq<Entry>)
    requires DistinctKeys(es)
    ensures Sorted(Sort(es))
  {
    if es != [] {
      SortSorts(es[1..]);
      forall i | 0 <= i < |Sort(es[1..])| ensures Sort(es[1..])[i].key != es[0].key {
        InSort(es[1..], Sort(es[1..])[i]);
      }
      InsertSorts(es[0], Sort(es[1..]));
    }
  }

  /** Sorting distinct keys has one possible result, whatever algorithm produced it. */
  lemma {:induction false} SortedIsUnique(a: seq<Entry>, b: seq<Entry>)
    requires Sorted(a) && Sorted(b)
    requires forall e :: e in a <==> e in b
    ensures a == b
  {
    if b == [] {
      assert forall i | 0 <= i < |a| :: a[i] in b;
    } else {
      assert b[0] in a;
      assert a[0] in b;
      assert a[0] == b[0] by {
        var i :| 0 <= i < |a| && a[i] == b[0];
        var j :| 0 <= j < |b| && b[j] == a[0];
        KeyOrderTotal(a[0].key, b[0].key);
      }
      SortedTailElements(a, b);
      SortedTailElements(b, a);
      SortedIsUnique(a[1..], b[1..]);
      assert a == [a[0]] + a[1..] && b == [b[0]] + b[1..];
    }
  }

  lemma SortedTailElements(a: seq<Entry>, b: seq<Entry>)
    requires Sorted(a) && Sorted(b) && a != [] && b != [] && a[0] == b[0]
    requires forall e :: e in a <==> e in b
    ensures forall e :: e in a[1..] ==> e in b[1..]
  {
    forall e | e in a[1..] ensures e in b[1..] {
      KeyOrderTotal(a[0].key, a[0].key);
      assert e in a && e in b;
      assert e != b[0];
    }
  }

  // ---------------------------------------------------------------- normal form

  function NormalizeItems(items: seq<Json>): (r: seq<Json>)
    ensures |r| == |items|
    ensures forall i | 0 <= i < |items| :: r[i] == Normalize(items[i])
  {
    seq(|items|, i requires 0 <= i < |items| => Normalize(items[i]))
  }

  function NormalizeEntries(es: seq<Entry>): (r: seq<Entry>)
    ensures |r| == |es|
    ensures forall i | 0 <= i < |es| :: r[i] == Entry(es[i].key, Normalize(es[i].value))
  {
    seq(|es|, i requires 0 <= i < |es| => Entry(es[i].key, Normalize(es[i].value)))
  }

  /** Sorts every object's entries, at every depth. */
  function Normalize(v: Json): Json {
    match v
    case Arr(items) => Arr(NormalizeItems(items))
    case Obj(es) => Obj(Sort(NormalizeEntries(es)))
    case _ => v
  }

  lemma {:induction false} NormalizedEntriesSorted(es: seq<Entry>)
    requires DistinctKeys(es)
    ensures Sorted(Sort(NormalizeEntries(es)))
    ensures DistinctKeys(Sort(NormalizeEntries(es)))
  {
    SortSorts(NormalizeEntries(es));
    var r := Sort(NormalizeEntries(es));
    forall i, j | 0 <= i < j < |r| ensures r[i].key != r[j].key {
      KeyOrderTotal(r[i].key, r[j].key);
    }
  }

  lemma {:induction false} NormalizeKeepsWellFormed(v: Json)
    requires WellFormed(v)
    ensures WellFormed(Normalize(v))
    decreases v
  {
    match v
    case Arr(items) =>
      forall i | 0 <= i < |items| ensures WellFormed(Normalize(items[i])) {
        NormalizeKeepsWellFormed(items[i]);
      }
    case Obj(es) =>
      var ns := NormalizeEntries(es);
      NormalizedEntriesSorted(es);
      forall i | 0 <= i < |Sort(ns)| ensures WellFormed(Sort(ns)[i].value) {
        InSort(ns, Sort(ns)[i]);
        var k :| 0 <= k < |ns| && ns[k] == Sort(ns)[i];
        NormalizeKeepsWellFormed(es[k].value);
      }
    case _ =>
  }

  /** Values that differ only in key order have the same normal form. */
  lemma {:induction false} SameImpliesNormalEqual(v: Json, w: Json)
    requires WellFormed(v) && WellFormed(w) && SameJson(v, w)
    ensures Normalize(v) == Normalize(w)
    decreases v
  {
    match v
    case Arr(a) => ItemsSameImpliesNormalEqual(a, w.items);
    case Obj(a) => EntriesSameImpliesNormalEqual(a, w.entries);
    case _ =>
  }

  lemma {:induction false} ItemsSameImpliesNormalEqual(a: seq<Json>, b: seq<Json>)
    requires WellFormed(Arr(a)) && WellFormed(Arr(b)) && SameJson(Arr(a), Arr(b))
    ensures NormalizeItems(a) == NormalizeItems(b)
    decreases a
  {
    forall i | 0 <= i < |a| ensures NormalizeItems(a)[i] == NormalizeItems(b)[i] {
      SameImpliesNormalEqual(a[i], b[i]);
    }
  }

  lemma {:induction false} EntriesSameImpliesNormalEqual(a: seq<Entry>, b: seq<Entry>)
    requires WellFormed(Obj(a)) && WellFormed(Obj(b)) && SameJson(Obj(a), Obj(b))
    ensures Sort(NormalizeEntries(a)) == Sort(NormalizeEntries(b))
    decreases a
  {
    var na, nb := NormalizeEntries(a), NormalizeEntries(b);
    forall i, j | 0 <= i < |a| && 0 <= j < |b| && a[i].key == b[j].key ensures na[i] == nb[j] {
      SameImpliesNormalEqual(a[i].value, b[j].value);
    }
    SharedKeysSharedEntries(a, b, na, nb);
    SharedKeysSharedEntries(b, a, nb, na);
    forall e ensures e in Sort(na) <==> e in Sort(nb) {
      InSort(na, e);
      InSort(nb, e);
    }
    NormalizedEntriesSorted(a);
    NormalizedEntriesSorted(b);
    SortedIsUnique(Sort(na), Sort(nb));
  }

  lemma SharedKeysSharedEntries(a: seq<Entry>, b: seq<Entry>, na: seq<Entry>, nb: seq<Entry>)
    requires |na| == |a| && |nb| == |b|
    requires forall i | 0 <= i < |a| :: HasKey(b, a[i].key)
    requires forall i, j | 0 <= i < |a| && 0 <= j < |b| && a[i].key == b[j].key :: na[i] == nb[j]
    ensures forall e | e in na :: e in nb
  {
    forall e | e in na ensures e in nb {
      var i :| 0 <= i < |na| && na[i] == e;
      var j :| 0 <= j < |b| && b[j].key == a[i].key;
      assert nb[j] == e;
    }
  }

  /** `b` holds `key` with a value of the given normal form. */
  predicate Binds(b: seq<Entry>, key: string, normal: Json) {
    exists k :: 0 <= k < |b| && b[k].key == key && Normalize(b[k].value) == normal
  }

  lemma {:induction false} NormalEntriesBind(a: seq<Entry>, b: seq<Entry>, i: nat)
    requires i < |a|
    requires Sort(NormalizeEntries(a)) == Sort(NormalizeEntries(b))
    ensures Binds(b, a[i].key, Normalize(a[i].value))
    ensures HasKey(b, a[i].key)
  {
    var e := NormalizeEntries(a)[i];
    InSort(NormalizeEntries(a), e);
    InSort(NormalizeEntries(b), e);
    var k :| 0 <= k < |b| && NormalizeEntries(b)[k] == e;
    assert b[k].key == a[i].key;
  }

  lemma BoundValueNormal(b: seq<Entry>, j: nat, normal: Json)
    requires DistinctKeys(b) && j < |b| && Binds(b, b[j].key, normal)
    ensures Normalize(b[j].value) == normal
  {
  }

  /** Values with the same normal form differ only in key order. */
  lemma {:induction false} NormalEqualImpliesSame(v: Json, w: Json)
    requires WellFormed(v) && WellFormed(w) && Normalize(v) == Normalize(w)
    ensures SameJson(v, w)
    decreases v
  {
    match v
    case Arr(a) =>
      assert w.Arr?;
      ItemsNormalEqualImpliesSame(a, w.items);
    case Obj(a) =>
      assert w.Obj?;
      EntriesNormalEqualImpliesSame(a, w.entries);
    case _ =>
  }

  lemma {:induction false} ItemsNormalEqualImpliesSame(a: seq<Json>, b: seq<Json>)
    requires WellFormed(Arr(a)) && WellFormed(Arr(b)) && NormalizeItems(a) == NormalizeItems(b)
    ensures |a| == |b| && forall i | 0 <= i < |a| :: SameJson(a[i], b[i])
    decreases a
  {
    assert |a| == |NormalizeItems(a)| == |NormalizeItems(b)| == |b|;
    forall i | 0 <= i < |a| ensures SameJson(a[i], b[i]) {
      assert NormalizeItems(a)[i] == NormalizeItems(b)[i];
      NormalEqualImpliesSame(a[i], b[i]);
    }
  }

  lemma {:induction false} EntriesNormalEqualImpliesSame(a: seq<Entry>, b: seq<Entry>)
    requires WellFormed(Obj(a)) && WellFormed(Obj(b))
    requires Sort(NormalizeEntries(a)) == Sort(NormalizeEntries(b))
    ensures SameJson(Obj(a), Obj(b))
    decreases a
  {
    forall i | 0 <= i < |a| ensures HasKey(b, a[i].key) {
      NormalEntriesBind(a, b, i);
    }
    forall j | 0 <= j < |b| ensures HasKey(a, b[j].key) {
      NormalEntriesBind(b, a, j);
    }
    forall i, j | 0 <= i < |a| && 0 <= j < |b| && a[i].key == b[j].key
      ensures SameJson(a[i].value, b[j].value)
    {
      NormalEntriesBind(a, b, i);
      BoundValueNormal(b, j, Normalize(a[i].value));
      NormalEqualImpliesSame(a[i].value, b[j].value);
    }
  }

  /** The normal form decides equality up to key order. */
  lemma {:induction false} NormalFormDecidesSameness(v: Json, w: Json)
    requires WellFormed(v) && WellFormed(w)
    ensures Normalize(v) == Normalize(w) <==> SameJson(v, w)
  {
    if SameJson(v, w) {
      SameImpliesNormalEqual(v, w);
    }
    if Normalize(v) == Normalize(w) {
      NormalEqualImpliesSame(v, w);
    }
  }
}
