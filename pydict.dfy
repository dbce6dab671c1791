/** A Python `dict` keyed by CONTATOS_ID: a map plus the order in which keys were first
    inserted, which is the order `dict.items()` walks and so the order of report rows. */
module PyDict {

  datatype ODict<V> = ODict(keys: seq<int>, vals: map<int, V>)

  /** Every key listed once, and listed exactly when it has a value. */
  ghost predicate Valid<V>(d: ODict<V>)
  {
    && (forall i, j :: 0 <= i < j < |d.keys| ==> d.keys[i] != d.keys[j])
    && (forall k :: k in d.vals <==> k in d.keys)
  }

  function Empty<V>(): (d: ODict<V>)
    ensures Valid(d) && |d.keys| == 0
  {
    ODict([], map[])
  }

  /** `d[k] = v`: a new key goes to the end, an existing key keeps its place. */
  function Put<V>(d: ODict<V>, k: int, v: V): ODict<V>
  {
    if k in d.vals then ODict(d.keys, d.vals[k := v]) else ODict(d.keys + [k], d.vals[k := v])
  }

  lemma PutSpec<V>(d: ODict<V>, k: int, v: V)
    requires Valid(d)
    ensures Valid(Put(d, k, v))
    ensures Put(d, k, v).vals == d.vals[k := v]
    ensures |Put(d, k, v).keys| == |d.keys| + (if k in d.vals then 0 else 1)
    ensures d.keys <= Put(d, k, v).keys
  {
  }

  /** The keys of `ks` not yet in `present`, first occurrences, in order. */
  function NewKeys(ks: seq<int>, present: set<int>): seq<int>
  {
    if ks == [] then []
    else if ks[0] in present then NewKeys(ks[1..], present)
    else [ks[0]] + NewKeys(ks[1..], present + {ks[0]})
  }

  /** Inserts `ks` one by one with their values from `vals`. */
  function PutAll<V>(d: ODict<V>, ks: seq<int>, vals: map<int, V>): ODict<V>
    requires forall k :: k in ks ==> k in vals
    decreases |ks|
  {
    if ks == [] then d else PutAll(Put(d, ks[0], vals[ks[0]]), ks[1..], vals)
  }

  /** `d.update(e)`. */
  function Update<V>(d: ODict<V>, e: ODict<V>): ODict<V>
    requires Valid(e)
  {
    PutAll(d, e.keys, e.vals)
  }

  lemma {:induction false} PutAllSpec<V>(d: ODict<V>, ks: seq<int>, vals: map<int, V>)
    requires Valid(d)
    requires forall k :: k in ks ==> k in vals
    ensures Valid(PutAll(d, ks, vals))
    ensures PutAll(d, ks, vals).keys == d.keys + NewKeys(ks, d.vals.Keys)
    ensures forall k :: k in PutAll(d, ks, vals).vals <==> k in d.vals || k in ks
    ensures forall k :: k in PutAll(d, ks, vals).vals ==>
      PutAll(d, ks, vals).vals[k] == if k in ks then vals[k] else d.vals[k]
    decreases |ks|
  {
    if ks != [] {
      var d1 := Put(d, ks[0], vals[ks[0]]);
      PutSpec(d, ks[0], vals[ks[0]]);
      PutAllSpec(d1, ks[1..], vals);
      assert d1.vals.Keys == d.vals.Keys + {ks[0]};
      if ks[0] in d.vals {
        assert d1.vals.Keys == d.vals.Keys;
        assert NewKeys(ks, d.vals.Keys) == NewKeys(ks[1..], d.vals.Keys);
      } else {
        assert d1.keys + NewKeys(ks[1..], d1.vals.Keys) == d.keys + ([ks[0]] + NewKeys(ks[1..], d.vals.Keys + {ks[0]}));
      }
      forall k
        ensures k in ks <==> k == ks[0] || k in ks[1..]
      {
        assert ks == [ks[0]] + ks[1..];
      }
    }
  }

  /** `d.update(e)` keeps `d`'s keys where they were and appends `e`'s new keys in `e`'s
      order; `e`'s values win on shared keys and every other value of `d` is kept. */
  lemma UpdateSpec<V>(d: ODict<V>, e: ODict<V>)
    requires Valid(d) && Valid(e)
    ensures Valid(Update(d, e))
    ensures Update(d, e).keys == d.keys + NewKeys(e.keys, d.vals.Keys)
    ensures Update(d, e).vals == d.vals + e.vals
  {
    PutAllSpec(d, e.keys, e.vals);
    var r := Update(d, e);
    forall k
      ensures k in r.vals <==> k in (d.vals + e.vals)
    {
      assert k in e.vals <==> k in e.keys;
    }
    assert r.vals.Keys == (d.vals + e.vals).Keys;
    forall k | k in r.vals
      ensures r.vals[k] == (d.vals + e.vals)[k]
    {
    }
  }

  /** Python's truthiness of a dict: it is empty exactly when it lists no key. */
  lemma EmptyKeys<V>(d: ODict<V>)
    requires Valid(d)
    ensures |d.keys| == 0 <==> d.vals == map[]
  {
    if |d.keys| > 0 {
      assert d.keys[0] in d.keys;
    }
    if |d.keys| == 0 {
      assert forall k :: k !in d.vals;
      assert d.vals == map[];
    }
  }

  lemma KeyHasValue<V>(d: ODict<V>, i: nat)
    requires Valid(d) && i < |d.keys|
    ensures d.keys[i] in d.vals
  {
    assert d.keys[i] in d.keys;
  }

  /** The number of entries grows by exactly the keys of `e` that were new. */
  lemma {:induction false} NewKeysCount(ks: seq<int>, present: set<int>)
    ensures |NewKeys(ks, present)| <= |ks|
    ensures (forall k :: k in ks ==> k !in present) && (forall i, j :: 0 <= i < j < |ks| ==> ks[i] != ks[j]) ==>
      NewKeys(ks, present) == ks
  {
    if ks != [] {
      NewKeysCount(ks[1..], present);
      NewKeysCount(ks[1..], present + {ks[0]});
      if (forall k :: k in ks ==> k !in present) && (forall i, j :: 0 <= i < j < |ks| ==> ks[i] != ks[j]) {
        forall k | k in ks[1..]
          ensures k !in present + {ks[0]}
        {
          var i :| 0 <= i < |ks[1..]| && ks[1..][i] == k;
          assert ks[i + 1] == k;
        }
        assert ks == [ks[0]] + ks[1..];
      }
    }
  }
}
