/**
 * A JavaScript `Map<string, V>` (and the property list of a plain object) as an ordered
 * association list. `get` finds the entry of a key, `set` on a present key replaces
 * its value where it stands, and `set` on a new key appends it.
 */
module JsMap {
  import opened Wrappers

  type Assoc<V> = seq<(string, V)>

  /** `Array.from(map.keys())`: the keys in insertion order. */
  function Keys<V>(m: Assoc<V>): (ks: seq<string>)
    ensures |ks| == |m|
    ensures forall i :: 0 <= i < |m| ==> ks[i] == m[i].0
  {
    if m == [] then [] else [m[0].0] + Keys(m[1..])
  }

  /** Every key occurs once, as in any JavaScript map or object. */
  predicate DistinctKeys<V>(m: Assoc<V>) {
    forall i, j :: 0 <= i < j < |m| ==> m[i].0 != m[j].0
  }

  /** The position of key `k`, if present. */
  function KeyIndex<V>(m: Assoc<V>, k: string): (r: Option<nat>)
    ensures r.Some? ==> r.value < |m| && m[r.value].0 == k
    ensures r.Some? ==> forall j :: 0 <= j < r.value ==> m[j].0 != k
    ensures r.None? ==> forall j :: 0 <= j < |m| ==> m[j].0 != k
  {
    if m == [] then None
    else if m[0].0 == k then Some(0)
    else match KeyIndex(m[1..], k)
      case None => None
      case Some(i) => Some(i + 1)
  }

  /** `map.has(k)`. */
  predicate Has<V>(m: Assoc<V>, k: string) {
    KeyIndex(m, k).Some?
  }

  lemma {:induction false} HasIffKey<V>(m: Assoc<V>, k: string)
    ensures Has(m, k) <==> k in Keys(m)
  {
    if k in Keys(m) {
      var i :| 0 <= i < |m| && Keys(m)[i] == k;
      assert m[i].0 == k;
    }
  }

  /** `map.get(k)`, with `undefined` as `None`. */
  function Get<V>(m: Assoc<V>, k: string): (r: Option<V>)
    ensures r.Some? <==> Has(m, k)
    ensures r.Some? ==> (k, r.value) in m
  {
    match KeyIndex(m, k)
    case None => None
    case Some(i) => Some(m[i].1)
  }

  /**
   * `map.set(k, v)`: afterwards `k` maps to `v` and every other key maps to what it
   * did; a present key keeps its position and a new key is appended last.
   */
  function Set<V>(m: Assoc<V>, k: string, v: V): (r: Assoc<V>)
    ensures Get(r, k) == Some(v)
    ensures forall j :: j != k ==> Get(r, j) == Get(m, j)
    ensures Keys(r) == if Has(m, k) then Keys(m) else Keys(m) + [k]
    ensures DistinctKeys(m) ==> DistinctKeys(r)
  {
    match KeyIndex(m, k)
    case Some(i) =>
      var r := m[i := (k, v)];
      assert Keys(r) == Keys(m);
      assert forall j :: KeyIndex(r, j) == KeyIndex(m, j) by {
        forall j ensures KeyIndex(r, j) == KeyIndex(m, j) {
          KeyIndexSameKeys(m, r, j);
        }
      }
      r
    case None =>
      var r := m + [(k, v)];
      assert Keys(r) == Keys(m) + [k];
      assert forall j :: KeyIndex(r, j) == (if j == k then Some(|m|) else KeyIndex(m, j)) by {
        forall j ensures KeyIndex(r, j) == (if j == k then Some(|m|) else KeyIndex(m, j)) {
          KeyIndexAppend(m, k, v, j);
        }
      }
      r
  }

  /** `set` on a key that is not present appends the pair. */
  lemma {:induction false} SetNew<V>(m: Assoc<V>, k: string, v: V)
    requires !Has(m, k)
    ensures Set(m, k, v) == m + [(k, v)]
  {
  }

  /** `map.set(k, v)` for each entry of `entries` in turn: the last entry is set after all the others. */
  function SetAll<V>(m: Assoc<V>, entries: Assoc<V>): Assoc<V>
    decreases |entries|
  {
    if entries == [] then m
    else
      var last := entries[|entries| - 1];
      Set(SetAll(m, entries[..|entries| - 1]), last.0, last.1)
  }

  /** Setting keys that are all new and distinct appends the entries in order. */
  lemma {:induction false} SetAllFresh<V>(m: Assoc<V>, entries: Assoc<V>)
    requires DistinctKeys(m + entries)
    ensures SetAll(m, entries) == m + entries
    decreases |entries|
  {
    if entries != [] {
      var n := |entries| - 1;
      var init := entries[..n];
      assert (m + init) + [entries[n]] == m + entries;
      LastKeyFresh(m + init, entries[n]);
      SetAllFresh(m, init);
      SetNew(m + init, entries[n].0, entries[n].1);
    }
  }

  /** With all keys distinct, the last key is not among the ones before it, and those stay distinct. */
  lemma {:induction false} LastKeyFresh<V>(m: Assoc<V>, e: (string, V))
    requires DistinctKeys(m + [e])
    ensures !Has(m, e.0) && DistinctKeys(m)
  {
    var all := m + [e];
    assert all[|m|] == e;
    forall j | 0 <= j < |m|
      ensures m[j].0 != e.0
    {
      assert all[j] == m[j];
    }
    forall i, j | 0 <= i < j < |m|
      ensures m[i].0 != m[j].0
    {
      assert all[i] == m[i] && all[j] == m[j];
    }
  }

  /**
   * Setting, one by one into an empty map, entries whose keys are those of a map
   * `like` with distinct keys gives the entries back, in order.
   */
  lemma {:induction false} SetAllDistinct<V, W>(entries: Assoc<V>, like: Assoc<W>)
    requires DistinctKeys(like) && Keys(entries) == Keys(like)
    ensures SetAll([], entries) == entries
  {
    assert forall i :: 0 <= i < |entries| ==> entries[i].0 == Keys(like)[i];
    assert [] + entries == entries;
    SetAllFresh([], entries);
  }

  /** Maps with the same key sequence have the same keys present. */
  lemma {:induction false} HasSameKeys<V, W>(m: Assoc<V>, n: Assoc<W>, k: string)
    requires Keys(m) == Keys(n)
    ensures Has(m, k) <==> Has(n, k)
  {
    HasIffKey(m, k);
    HasIffKey(n, k);
  }

  /** The position of a key depends only on the key sequence. */
  lemma {:induction false} KeyIndexSameKeys<V>(m: Assoc<V>, n: Assoc<V>, k: string)
    requires Keys(m) == Keys(n)
    ensures KeyIndex(m, k) == KeyIndex(n, k)
  {
    if m != [] {
      assert m[0].0 == n[0].0;
      assert Keys(m[1..]) == Keys(m)[1..];
      assert Keys(n[1..]) == Keys(n)[1..];
      KeyIndexSameKeys(m[1..], n[1..], k);
    }
  }

  /** Appending a new key leaves the positions of the others alone. */
  lemma {:induction false} KeyIndexAppend<V>(m: Assoc<V>, k: string, v: V, j: string)
    requires !Has(m, k)
    ensures KeyIndex(m + [(k, v)], j) == if j == k then Some(|m|) else KeyIndex(m, j)
  {
    if m != [] {
      assert (m + [(k, v)])[1..] == m[1..] + [(k, v)];
      KeyIndexAppend(m[1..], k, v, j);
    }
  }
}
