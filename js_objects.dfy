/** A plain JavaScript object used as a dictionary (`Record<string, V>`), and the order in
    which `Object.values` and `Object.entries` visit it. ECMAScript's OrdinaryOwnPropertyKeys
    lists the keys that are array indices first, in ascending numeric order, and then the
    other string keys in the order they were first added. */
module JsObjects {
  import opened JsStrings
  import opened Seqs
  import opened StableSort

  /** A canonical numeral below 2^32 - 1: the keys an object orders numerically. */
  predicate IsArrayIndex(k: string)
  {
    |k| > 0 && AllDigits(k) && (k[0] == '0' ==> |k| == 1) && DecimalValue(k) < 0xFFFF_FFFF
  }

  predicate NotArrayIndex(k: string)
  {
    !IsArrayIndex(k)
  }

  /** The numeric value of an array-index key (0 for any other key, which is never asked). */
  function IndexValue(k: string): real
  {
    if AllDigits(k) then DecimalValue(k) as real else 0.0
  }

  /** OrdinaryOwnPropertyKeys, given the keys in the order they were first added. */
  function OwnKeys(insertion: seq<string>): (r: seq<string>)
    ensures multiset(r) == multiset(insertion)
    ensures |r| == |insertion|
  {
    FilterMultiset(insertion, IsArrayIndex, NotArrayIndex);
    var r := SortBy(Filter(insertion, IsArrayIndex), IndexValue) + Filter(insertion, NotArrayIndex);
    assert |r| == |multiset(r)| == |multiset(insertion)| == |insertion|;
    r
  }

  /** An object used as a dictionary: its keys in insertion order, and its properties. */
  datatype Record<V> = Record(keys: seq<string>, values: map<string, V>)
  {
    /** The keys are distinct and are exactly the properties. */
    predicate Valid()
    {
      NoDuplicates(keys) && (forall k :: k in keys ==> k in values)
      && (forall k :: k in values ==> k in keys)
    }
  }

  /** `Object.keys(rec)`. */
  function Keys<V>(rec: Record<V>): (r: seq<string>)
    requires rec.Valid()
    ensures multiset(r) == multiset(rec.keys)
    ensures |r| == |rec.keys|
    ensures forall k :: k in r <==> k in rec.values
  {
    var r := OwnKeys(rec.keys);
    assert forall k :: k in r <==> k in multiset(rec.keys);
    r
  }

  /** `Object.values(rec)`. */
  function Values<V>(rec: Record<V>): (r: seq<V>)
    requires rec.Valid()
    ensures |r| == |rec.keys|
    ensures forall i :: 0 <= i < |r| ==> r[i] == rec.values[Keys(rec)[i]]
  {
    var ks := Keys(rec);
    seq(|ks|, i requires 0 <= i < |ks| => rec.values[ks[i]])
  }

  /** Inserts `v` under `k`: a new key goes to the end of the insertion order. */
  function Put<V>(rec: Record<V>, k: string, v: V): Record<V>
  {
    if k in rec.values then Record(rec.keys, rec.values[k := v])
    else Record(rec.keys + [k], rec.values[k := v])
  }

  /** Assigning a property keeps the keys distinct and in step with the properties; it sets
      that one property and appends its key when it is new. */
  lemma {:induction false} PutValid<V>(rec: Record<V>, k: string, v: V)
    requires rec.Valid()
    ensures Put(rec, k, v).Valid()
    ensures Put(rec, k, v).values == rec.values[k := v]
    ensures Put(rec, k, v).keys == if k in rec.values then rec.keys else rec.keys + [k]
  {
  }

  /** Keys that are all array indices are visited in ascending numeric order. */
  lemma {:induction false} OwnKeysOfIndices(insertion: seq<string>)
    requires forall k :: k in insertion ==> IsArrayIndex(k)
    ensures OwnKeys(insertion) == SortBy(insertion, IndexValue)
    ensures SortedBy(OwnKeys(insertion), IndexValue)
  {
    FilterAll(insertion, IsArrayIndex);
    FilterNone(insertion, NotArrayIndex);
  }

  /** Keys none of which is an array index are visited in insertion order. */
  lemma {:induction false} OwnKeysOfNames(insertion: seq<string>)
    requires forall k :: k in insertion ==> !IsArrayIndex(k)
    ensures OwnKeys(insertion) == insertion
  {
    FilterNone(insertion, IsArrayIndex);
    FilterAll(insertion, NotArrayIndex);
  }

  /** The numeral of a number below 2^32 - 1 is an array index whose value is the number. */
  lemma {:induction false} NumeralIsArrayIndex(n: nat)
    requires n < 0xFFFF_FFFF
    ensures IsArrayIndex(NatToString(n))
    ensures IndexValue(NatToString(n)) == n as real
  {
    DecimalValueOfNatToString(n);
  }
}
