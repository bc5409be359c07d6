/** An insertion-ordered dictionary with string keys: the behaviour of a
    JavaScript plain object or `Map` that the engine iterates. Writing an
    existing key replaces its value in place; writing a new key appends it,
    so iteration visits keys in the order of their first write. */
module Dict {
  import opened Wrappers

  /** The keys in iteration order, and the value stored under each. */
  datatype Dict<V> = Dict(keys: seq<string>, values: map<string, V>)

  /** No key occurs twice. */
  predicate Distinct(ks: seq<string>) {
    forall i, j :: 0 <= i < j < |ks| ==> ks[i] != ks[j]
  }

  /** The key list holds each stored key exactly once. */
  predicate Valid<V>(d: Dict<V>) {
    && Distinct(d.keys)
    && (forall k :: k in d.keys ==> k in d.values)
    && (forall k :: k in d.values ==> k in d.keys)
  }

  /** `{}` and `new Map()`. */
  function Empty<V>(): (d: Dict<V>)
    ensures Valid(d) && d.keys == []
  {
    Dict([], map[])
  }

  /** The value stored under `k` (`map.get(k)`, `obj[k]`). */
  function Get<V>(d: Dict<V>, k: string): Option<V> {
    if k in d.values then Some(d.values[k]) else None
  }

  /** The key list after writing `k`: unchanged if present, else `k` appended. */
  function AddKey(ks: seq<string>, k: string): (r: seq<string>)
    ensures k in r
    ensures forall x :: x in r <==> x in ks || x == k
    ensures Distinct(ks) ==> Distinct(r)
  {
    if k in ks then ks else ks + [k]
  }

  /** `map.set(k, v)`, `obj[k] = v`: `k` now holds `v`, every other key keeps
      its value, and a new key goes to the end of the iteration order. */
  function Put<V>(d: Dict<V>, k: string, v: V): (r: Dict<V>)
    ensures Valid(d) ==> Valid(r)
    ensures r.keys == AddKey(d.keys, k)
    ensures Get(r, k) == Some(v)
    ensures forall k' :: k' != k ==> Get(r, k') == Get(d, k')
  {
    Dict(AddKey(d.keys, k), d.values[k := v])
  }

  /** `[...map.values()]`: the values in iteration order. */
  function Values<V>(d: Dict<V>): (r: seq<V>)
    requires Valid(d)
    ensures |r| == |d.keys|
    ensures forall i :: 0 <= i < |r| ==> r[i] == d.values[d.keys[i]]
  {
    seq(|d.keys|, i requires 0 <= i < |d.keys| => d.values[d.keys[i]])
  }

  /** The distinct elements of `ks` in order of first occurrence. */
  function Uniq(ks: seq<string>): seq<string> {
    if ks == [] then [] else AddKey(Uniq(ks[..|ks| - 1]), ks[|ks| - 1])
  }

  lemma {:induction false} UniqIsDistinctElements(ks: seq<string>)
    ensures Distinct(Uniq(ks))
    ensures forall x :: x in Uniq(ks) <==> x in ks
  {
    if ks != [] {
      var p := ks[..|ks| - 1];
      UniqIsDistinctElements(p);
      assert ks == p + [ks[|ks| - 1]];
    }
  }

  /** A list without repetitions is as long as the set of its elements. */
  lemma {:induction false} DistinctCardinality(ks: seq<string>)
    requires Distinct(ks)
    ensures |set x | x in ks| == |ks|
  {
    if ks != [] {
      var p := ks[..|ks| - 1];
      var last := ks[|ks| - 1];
      DistinctCardinality(p);
      assert ks == p + [last];
      assert last !in p;
      assert (set x | x in ks) == (set x | x in p) + {last};
    }
  }

  /** `new Set(ks).size` equals the length of the first-occurrence list. */
  lemma UniqCardinality(ks: seq<string>)
    ensures |Uniq(ks)| == |set x | x in ks|
  {
    UniqIsDistinctElements(ks);
    DistinctCardinality(Uniq(ks));
    assert (set x | x in Uniq(ks)) == (set x | x in ks);
  }

  /** The value under `k`, or 0 where there is none. */
  function ValueOr0(m: map<string, real>, k: string): real {
    if k in m then m[k] else 0.0
  }

  /** The values under the keys `ks`, added in order. */
  function SumAt(ks: seq<string>, m: map<string, real>): real {
    if ks == [] then 0.0 else SumAt(ks[..|ks| - 1], m) + ValueOr0(m, ks[|ks| - 1])
  }

  /** The sum of all values of a dictionary of numbers. */
  function SumValues(d: Dict<real>): real {
    SumAt(d.keys, d.values)
  }

  lemma {:induction false} SumAtUpdateOutside(ks: seq<string>, m: map<string, real>, k: string, x: real)
    requires k !in ks
    ensures SumAt(ks, m[k := x]) == SumAt(ks, m)
  {
    if ks != [] {
      SumAtUpdateOutside(ks[..|ks| - 1], m, k, x);
    }
  }

  lemma {:induction false} SumAtAdd(ks: seq<string>, m: map<string, real>, k: string, a: real)
    requires Distinct(ks) && k in ks
    ensures SumAt(ks, m[k := ValueOr0(m, k) + a]) == SumAt(ks, m) + a
  {
    var p := ks[..|ks| - 1];
    if ks[|ks| - 1] == k {
      assert k !in p;
      SumAtUpdateOutside(p, m, k, ValueOr0(m, k) + a);
    } else {
      assert k in p;
      SumAtAdd(p, m, k, a);
    }
  }

  /** `obj[k] = (obj[k] || 0) + a`: a running sum under `k`. */
  function AddTo(d: Dict<real>, k: string, a: real): (r: Dict<real>)
    ensures Valid(d) ==> Valid(r)
    ensures r.keys == AddKey(d.keys, k)
    ensures r.values == d.values[k := ValueOr0(d.values, k) + a]
    ensures Get(r, k).GetOr(0.0) == Get(d, k).GetOr(0.0) + a
    ensures forall k' :: k' != k ==> Get(r, k') == Get(d, k')
  {
    Put(d, k, Get(d, k).GetOr(0.0) + a)
  }

  /** Adding `a` under any key adds exactly `a` to the sum of the values. */
  lemma SumValuesAccumulate(d: Dict<real>, k: string, a: real)
    requires Valid(d)
    ensures SumValues(AddTo(d, k, a)) == SumValues(d) + a
  {
    var v := ValueOr0(d.values, k) + a;
    var m := d.values[k := v];
    if k in d.keys {
      SumAtAdd(d.keys, d.values, k, a);
    } else {
      var ks := d.keys + [k];
      assert ks[..|ks| - 1] == d.keys;
      assert SumAt(ks, m) == SumAt(d.keys, m) + v;
      SumAtUpdateOutside(d.keys, d.values, k, v);
    }
  }
}
