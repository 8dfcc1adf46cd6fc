/** The insertion-ordered maps and sets of the `indexmap` crate, the
    operations `src/lib.rs` applies to them. */
module IndexMaps {

  /** An `IndexMap`: its keys in order, and the value of each key. */
  datatype IndexMap<K, V> = IndexMap(keys: seq<K>, values: map<K, V>)

  predicate Distinct<K(==)>(s: seq<K>)
  {
    forall i, j :: 0 <= i < j < |s| ==> s[i] != s[j]
  }

  /** Each key listed once, and exactly the keys that have values. */
  predicate Valid<K, V>(m: IndexMap<K, V>)
  {
    Distinct(m.keys)
    && (forall k :: k in m.keys ==> k in m.values)
    && (forall k :: k in m.values ==> k in m.keys)
  }

  function Empty<K, V>(): (m: IndexMap<K, V>)
    ensures Valid(m) && m.values == map[]
  {
    IndexMap([], map[])
  }

  /** `insert`: a new key goes last; an existing key keeps its place and gets
      the new value. */
  function Insert<K, V>(m: IndexMap<K, V>, k: K, v: V): (r: IndexMap<K, V>)
    requires Valid(m)
    ensures Valid(r) && r.values == m.values[k := v]
    ensures k in m.values ==> r.keys == m.keys
    ensures k !in m.values ==> r.keys == m.keys + [k]
  {
    if k in m.values then IndexMap(m.keys, m.values[k := v])
    else IndexMap(m.keys + [k], m.values[k := v])
  }

  /** The position of `k` among the keys. */
  function IndexOf<K(==)>(s: seq<K>, k: K): (i: nat)
    requires k in s
    ensures i < |s| && s[i] == k
    ensures forall j :: 0 <= j < i ==> s[j] != k
  {
    if s[0] == k then 0 else 1 + IndexOf(s[1..], k)
  }

  /** The keys without position `i`, the last key moved into its place. */
  function SwapOut<K>(s: seq<K>, i: nat): (r: seq<K>)
    requires i < |s|
    ensures |r| == |s| - 1
    ensures forall j :: 0 <= j < |r| ==> r[j] == s[if j == i then |s| - 1 else j]
  {
    var n := |s| - 1;
    if i == n then s[..n] else s[..i] + [s[n]] + s[i + 1..n]
  }

  lemma SwapOutKeys<K>(s: seq<K>, i: nat)
    requires i < |s| && Distinct(s)
    ensures Distinct(SwapOut(s, i))
    ensures forall x :: x in SwapOut(s, i) <==> x in s && x != s[i]
  {
    var r := SwapOut(s, i);
    var n := |s| - 1;
    forall x | x in s && x != s[i]
      ensures x in r
    {
      var j :| 0 <= j < |s| && s[j] == x;
      if j == n {
        assert r[i] == x;
      } else {
        assert r[j] == x;
      }
    }
  }

  /** `remove`, which in `indexmap` 1.x is `swap_remove`: the last key takes
      the removed key's place. */
  function SwapRemove<K, V>(m: IndexMap<K, V>, k: K): (r: IndexMap<K, V>)
    requires Valid(m)
    ensures Valid(r) && r.values == m.values - {k}
    ensures k !in m.values ==> r == m
    ensures k in m.values ==> |r.keys| == |m.keys| - 1
  {
    if k !in m.values then m
    else
      var i := IndexOf(m.keys, k);
      SwapOutKeys(m.keys, i);
      IndexMap(SwapOut(m.keys, i), m.values - {k})
  }

  /** `IndexSet::insert`: a new element goes last, an existing one stays put.
      The result says whether the element was new. */
  function SetInsert<K(==)>(s: seq<K>, x: K): (r: (seq<K>, bool))
    requires Distinct(s)
    ensures Distinct(r.0)
    ensures r.1 <==> x !in s
    ensures r.0 == if x in s then s else s + [x]
  {
    if x in s then (s, false) else (s + [x], true)
  }
}
