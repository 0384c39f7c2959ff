// A Python dict: keys kept in insertion order, assignment to an existing key keeps its place.
module PyDict {
  import opened Wrappers

  type Dict<K, V> = seq<(K, V)>

  function Keys<K, V>(d: Dict<K, V>): (r: seq<K>)
    ensures |r| == |d|
    ensures forall i :: 0 <= i < |d| ==> r[i] == d[i].0
  {
    if d == [] then [] else [d[0].0] + Keys(d[1..])
  }

  predicate HasKey<K(==), V>(d: Dict<K, V>, k: K)
  {
    exists i :: 0 <= i < |d| && d[i].0 == k
  }

  /** No key occurs twice: the invariant every dict keeps. */
  predicate DistinctKeys<K(==), V>(d: Dict<K, V>)
  {
    forall i, j :: 0 <= i < j < |d| ==> d[i].0 != d[j].0
  }

  /** Position of key `k`, or -1 when it is absent. */
  function IndexOf<K(==), V>(d: Dict<K, V>, k: K): (r: int)
    ensures -1 <= r < |d|
    ensures r >= 0 ==> d[r].0 == k
    ensures r < 0 <==> !HasKey(d, k)
  {
    if d == [] then -1
    else if d[0].0 == k then 0
    else
      var r := IndexOf(d[1..], k);
      assert HasKey(d, k) ==> HasKey(d[1..], k) by {
        if HasKey(d, k) { var i :| 0 <= i < |d| && d[i].0 == k; assert d[1..][i - 1].0 == k; }
      }
      if r < 0 then -1 else r + 1
  }

  /** `d.get(k)`. */
  function Get<K(==), V>(d: Dict<K, V>, k: K): (r: Option<V>)
    ensures r.Some? <==> HasKey(d, k)
    ensures r.Some? ==> exists i :: 0 <= i < |d| && d[i].0 == k && d[i].1 == r.value
  {
    var i := IndexOf(d, k);
    if i < 0 then None else Some(d[i].1)
  }

  /** `d[k] = v`. */
  function Put<K(==), V>(d: Dict<K, V>, k: K, v: V): (r: Dict<K, V>)
    requires DistinctKeys(d)
    ensures DistinctKeys(r)
    ensures HasKey(d, k) ==> |r| == |d| && forall i :: 0 <= i < |d| ==> r[i].0 == d[i].0
    ensures !HasKey(d, k) ==> r == d + [(k, v)]
    ensures forall i :: 0 <= i < |d| && d[i].0 != k ==> r[i] == d[i]
    ensures forall i :: 0 <= i < |r| && r[i].0 == k ==> r[i].1 == v
    ensures HasKey(r, k)
  {
    var i := IndexOf(d, k);
    if i < 0 then
      var r := d + [(k, v)];
      assert r[|d|].0 == k;
      r
    else
      var r := d[i := (k, v)];
      assert r[i].0 == k;
      r
  }

  lemma GetPut<K, V>(d: Dict<K, V>, k: K, v: V, k2: K)
    requires DistinctKeys(d)
    ensures Get(Put(d, k, v), k2) == if k2 == k then Some(v) else Get(d, k2)
  {
    var r := Put(d, k, v);
    if k2 != k {
      if HasKey(d, k2) {
        var i :| 0 <= i < |d| && d[i].0 == k2;
        assert r[i] == d[i];
        GetAt(d, i);
        GetAt(r, i);
      } else {
        forall i | 0 <= i < |r| ensures r[i].0 != k2 {
          if i < |d| && d[i].0 != k { assert r[i] == d[i]; }
        }
      }
    }
  }

  /** With distinct keys, the entry at position i is what `Get` finds for its key. */
  lemma GetAt<K, V>(d: Dict<K, V>, i: int)
    requires DistinctKeys(d) && 0 <= i < |d|
    ensures Get(d, d[i].0) == Some(d[i].1)
  {
    assert HasKey(d, d[i].0);
  }
}
