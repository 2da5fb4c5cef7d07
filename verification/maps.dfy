/** `Dictionary<string, string>` as the library uses it: entries are only ever
    added or overwritten, never removed, so enumeration follows first insertion
    and an overwrite keeps the entry in its place. Modelled as an association
    list with distinct keys. */
module OrderedMaps {
  import opened Core

  datatype Entry<K, V> = Entry(key: K, value: V)

  function Keys<K, V>(m: seq<Entry<K, V>>): (ks: seq<K>)
    ensures |ks| == |m|
    ensures forall i :: 0 <= i < |m| ==> ks[i] == m[i].key
    decreases |m|
  {
    if |m| == 0 then [] else [m[0].key] + Keys(m[1..])
  }

  predicate UniqueKeys<K(==), V>(m: seq<Entry<K, V>>) {
    forall i, j :: 0 <= i < j < |m| ==> m[i].key != m[j].key
  }

  predicate ContainsKey<K(==), V>(m: seq<Entry<K, V>>, k: K) {
    k in Keys(m)
  }

  /** The indexer's read: the value of the first entry with key `k`. */
  function Lookup<K(==), V>(m: seq<Entry<K, V>>, k: K): (r: Option<V>)
    ensures r.Some? <==> ContainsKey(m, k)
    decreases |m|
  {
    if |m| == 0 then None
    else if m[0].key == k then Some(m[0].value)
    else Lookup(m[1..], k)
  }

  /** The indexer's write `m[k] = v`. */
  function Assign<K(==), V>(m: seq<Entry<K, V>>, k: K, v: V): (r: seq<Entry<K, V>>)
    ensures Lookup(r, k) == Some(v)
    ensures !ContainsKey(m, k) ==> r == m + [Entry(k, v)]
    decreases |m|
  {
    if |m| == 0 then [Entry(k, v)]
    else if m[0].key == k then [Entry(k, v)] + m[1..]
    else [m[0]] + Assign(m[1..], k, v)
  }

  /** With distinct keys, the entry at position `i` is what `Lookup` finds for its key. */
  lemma {:induction false} LookupAt<K, V>(m: seq<Entry<K, V>>, i: nat)
    requires UniqueKeys(m) && i < |m|
    ensures Lookup(m, m[i].key) == Some(m[i].value)
    decreases i
  {
    if i > 0 {
      assert m[0].key != m[i].key;
      assert m[1..][i - 1] == m[i];
      LookupAt(m[1..], i - 1);
    }
  }

  /** Writing one key leaves the value of every other key as it was. */
  lemma {:induction false} AssignOther<K, V>(m: seq<Entry<K, V>>, k: K, v: V, other: K)
    requires other != k
    ensures Lookup(Assign(m, k, v), other) == Lookup(m, other)
    decreases |m|
  {
    if |m| > 0 && m[0].key != k {
      AssignOther(m[1..], k, v, other);
    }
  }

  /** Writing an existing key keeps every key in its place. */
  lemma {:induction false} AssignKeys<K, V>(m: seq<Entry<K, V>>, k: K, v: V)
    requires ContainsKey(m, k)
    ensures Keys(Assign(m, k, v)) == Keys(m)
    decreases |m|
  {
    if m[0].key != k {
      assert k in Keys(m[1..]);
      AssignKeys(m[1..], k, v);
    }
  }

  /** The keys after a write are the keys before it, with `k` added. */
  lemma {:induction false} AssignKeySet<K, V>(m: seq<Entry<K, V>>, k: K, v: V, other: K)
    ensures ContainsKey(Assign(m, k, v), other) <==> other == k || ContainsKey(m, other)
    decreases |m|
  {
    if |m| > 0 && m[0].key != k {
      AssignKeySet(m[1..], k, v, other);
    }
  }

  /** A write never introduces a second entry for a key. */
  lemma {:induction false} AssignUnique<K, V>(m: seq<Entry<K, V>>, k: K, v: V)
    requires UniqueKeys(m)
    ensures UniqueKeys(Assign(m, k, v))
    decreases |m|
  {
    if |m| > 0 && m[0].key != k {
      var tail := m[1..];
      AssignUnique(tail, k, v);
      var r := Assign(m, k, v);
      forall i | 0 < i < |r| ensures r[i].key != m[0].key {
        if r[i].key == m[0].key {
          assert ContainsKey(Assign(tail, k, v), m[0].key) by {
            assert Keys(Assign(tail, k, v))[i - 1] == m[0].key;
          }
          AssignKeySet(tail, k, v, m[0].key);
        }
      }
    }
  }
}
