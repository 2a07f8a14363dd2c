/** Insertion-ordered dictionaries, as Python's `dict`: the key order is the
    order in which keys were first inserted, assigning to a present key keeps
    its place, and deleting a key drops it from the order. */
module OrderedMaps {
  import opened Lists

  datatype OrderedMap<K, V> = OrderedMap(keys: seq<K>, items: map<K, V>)

  /** The key order lists every key of `items` exactly once. */
  predicate Valid<K(==), V>(m: OrderedMap<K, V>) {
    && Distinct(m.keys)
    && (forall k | k in m.items :: k in m.keys)
    && (forall k | k in m.keys :: k in m.items)
  }

  function Empty<K(==), V>(): (m: OrderedMap<K, V>)
    ensures Valid(m) && m.items == map[]
  {
    OrderedMap([], map[])
  }

  /** `d[k] = v`. */
  function Put<K(==), V>(m: OrderedMap<K, V>, k: K, v: V): (r: OrderedMap<K, V>)
    ensures Valid(m) ==> Valid(r)
  {
    if k in m.items then OrderedMap(m.keys, m.items[k := v])
    else OrderedMap(m.keys + [k], m.items[k := v])
  }

  /** `del d[k]` (for a present key): the key leaves the order, and every
      other key keeps its value and its place relative to the rest. */
  function Remove<K(==), V>(m: OrderedMap<K, V>, k: K): (r: OrderedMap<K, V>)
    ensures Valid(m) ==> Valid(r)
    ensures k !in r.items
    ensures forall j | j in m.items && j != k :: j in r.items && r.items[j] == m.items[j]
    ensures Valid(m) && k in m.items ==> r.keys == m.keys[..IndexOf(m.keys, k)] + m.keys[IndexOf(m.keys, k) + 1..]
  {
    assert Valid(m) && k in m.items ==> Keep(m.keys, [k]) == m.keys[..IndexOf(m.keys, k)] + m.keys[IndexOf(m.keys, k) + 1..] by {
      if Valid(m) && k in m.items {
        KeepCut(m.keys, k);
      }
    }
    OrderedMap(Keep(m.keys, [k]), m.items - {k})
  }

  /** Assigning a key twice keeps only the second value, in the place the
      key had. */
  lemma PutTwice<K, V>(m: OrderedMap<K, V>, k: K, a: V, b: V)
    ensures Put(Put(m, k, a), k, b) == Put(m, k, b)
  {
    assert m.items[k := a][k := b] == m.items[k := b];
  }

  /** Inserting a fresh key and deleting it again restores the dictionary,
      key order included. */
  lemma RemoveAfterPut<K, V>(m: OrderedMap<K, V>, k: K, v: V)
    requires Valid(m) && k !in m.items
    ensures Remove(Put(m, k, v), k) == m
  {
    KeepConcat(m.keys, [k], [k]);
    KeepNone(m.keys, [k]);
    assert Keep([k], [k]) == [];
    assert m.items[k := v] - {k} == m.items;
  }

  /** Sum of `size(items[k])` over the keys `ks` (absent keys count 0). */
  function SumOver<K(==), V>(ks: seq<K>, items: map<K, V>, size: V -> nat): nat
  {
    if ks == [] then 0
    else
      var k := ks[|ks| - 1];
      SumOver(ks[..|ks| - 1], items, size) + (if k in items then size(items[k]) else 0)
  }

  /** The total of a dictionary's values under `size`. */
  function Size<K(==), V>(m: OrderedMap<K, V>, size: V -> nat): nat {
    SumOver(m.keys, m.items, size)
  }

  lemma {:induction false} SumOverIgnoresOthers<K, V>(ks: seq<K>, items: map<K, V>, size: V -> nat, k: K, v: V)
    requires k !in ks
    ensures SumOver(ks, items[k := v], size) == SumOver(ks, items, size)
  {
    if ks != [] {
      SumOverIgnoresOthers(ks[..|ks| - 1], items, size, k, v);
    }
  }

  lemma {:induction false} SumOverUpdate<K, V>(ks: seq<K>, items: map<K, V>, size: V -> nat, k: K, v: V)
    requires Distinct(ks) && k in ks
    ensures SumOver(ks, items[k := v], size) + (if k in items then size(items[k]) else 0)
         == SumOver(ks, items, size) + size(v)
  {
    var init, last := ks[..|ks| - 1], ks[|ks| - 1];
    if last == k {
      assert k !in init by {
        forall i | 0 <= i < |init| ensures init[i] != k { assert ks[i] != ks[|ks| - 1]; }
      }
      SumOverIgnoresOthers(init, items, size, k, v);
    } else {
      assert k in init by {
        var j :| 0 <= j < |ks| && ks[j] == k;
        assert j < |ks| - 1 && init[j] == k;
      }
      assert Distinct(init) by {
        forall i, j | 0 <= i < j < |init| ensures init[i] != init[j] { assert ks[i] != ks[j]; }
      }
      SumOverUpdate(init, items, size, k, v);
    }
  }

  /** Storing `v` under `k` changes the total by exactly `size(v)` minus the
      size of the value it replaces. */
  lemma SizeOfPut<K, V>(m: OrderedMap<K, V>, size: V -> nat, k: K, v: V)
    requires Valid(m)
    ensures Size(Put(m, k, v), size) + (if k in m.items then size(m.items[k]) else 0)
         == Size(m, size) + size(v)
  {
    if k in m.items {
      SumOverUpdate(m.keys, m.items, size, k, v);
    } else {
      var r := Put(m, k, v);
      assert r.keys[..|r.keys| - 1] == m.keys;
      SumOverIgnoresOthers(m.keys, m.items, size, k, v);
    }
  }
}
