/**
 * The bounded cache of src/main/java/com/catascopic/template/LruMap.java: a
 * LinkedHashMap in access order whose removeEldestEntry hook drops the least
 * recently used entry once the map holds more than maxEntries entries. The hash
 * table is modelled by what it shows: a map from keys to values and the access
 * order of the keys, least recently used first.
 */
module LruMap {
  import opened Wrappers

  /** No key occurs twice in the order. */
  predicate NoDuplicates<K(==,!new)>(s: seq<K>)
  {
    forall i, j :: 0 <= i < j < |s| ==> s[i] != s[j]
  }

  /** The order with k taken out; the other keys keep their relative order. */
  function Remove<K(==,!new)>(order: seq<K>, k: K): (r: seq<K>)
    ensures forall x :: x in r <==> x in order && x != k
    ensures |r| <= |order|
    ensures k !in order ==> r == order
  {
    if order == [] then []
    else (if order[0] == k then [] else [order[0]]) + Remove(order[1..], k)
  }

  /** Removing a key that occurs once shortens the order by one and keeps it free of
      duplicates. */
  lemma {:induction false} RemovePresent<K(!new)>(order: seq<K>, k: K)
    requires NoDuplicates(order) && k in order
    ensures |Remove(order, k)| == |order| - 1
    ensures NoDuplicates(Remove(order, k))
  {
    if order[0] == k {
      assert k !in order[1..];
      assert Remove(order, k) == order[1..];
    } else {
      assert NoDuplicates(order[1..]);
      RemovePresent(order[1..], k);
      var rest := Remove(order[1..], k);
      assert Remove(order, k) == [order[0]] + rest;
      assert order[0] !in order[1..];
    }
  }

  /** An access moves k to the most recently used end. */
  function Touch<K(==,!new)>(order: seq<K>, k: K): (r: seq<K>)
    ensures |r| > 0 && r[|r| - 1] == k
  {
    Remove(order, k) + [k]
  }

  /** The visible state of the cache. */
  datatype State<K, V> = State(order: seq<K>, entries: map<K, V>)

  /** The access order lists exactly the keys of the map, each once. */
  predicate Consistent<K(==,!new), V>(st: State<K, V>)
  {
    NoDuplicates(st.order) &&
    (forall k :: k in st.entries ==> k in st.order) && (forall k :: k in st.order ==> k in st.entries)
  }

  /** In a consistent state the map holds as many entries as the order has keys. */
  lemma {:induction false} SizeIsOrderLength<K(!new), V>(st: State<K, V>)
    requires Consistent(st)
    ensures |st.entries| == |st.order|
    decreases |st.order|
  {
    if st.order != [] {
      var k := st.order[0];
      var rest := State(st.order[1..], st.entries - {k});
      assert NoDuplicates(rest.order);
      assert k !in st.order[1..];
      forall x
        ensures x in rest.entries <==> x in rest.order
      {
        if x in st.order && x != k {
          var i :| 0 <= i < |st.order| && st.order[i] == x;
          assert i != 0;
          assert st.order[1..][i - 1] == x;
        }
      }
      SizeIsOrderLength(rest);
    }
  }

  /** get(k) in access order: a present key answers its value and becomes the most
      recently used; an absent key answers nothing and changes nothing. */
  function GetSpec<K(==,!new), V>(st: State<K, V>, k: K): (r: (State<K, V>, Option<V>))
    ensures r.1.Some? <==> k in st.entries
    ensures k in st.entries ==> r.1.value == st.entries[k]
    ensures r.0.entries == st.entries
    ensures k in st.entries ==> |r.0.order| > 0 && r.0.order[|r.0.order| - 1] == k
    ensures k !in st.entries ==> r.0.order == st.order
  {
    if k in st.entries then (State(Touch(st.order, k), st.entries), Some(st.entries[k]))
    else (st, None)
  }

  /** put(k, v) followed by the removeEldestEntry hook: a present key gets the new value
      and becomes the most recently used, with no eviction; a new key is appended, and
      the eldest entry goes when the map then holds more than maxEntries entries. The
      result is the previous value. */
  function PutSpec<K(==,!new), V>(st: State<K, V>, maxEntries: int, k: K, v: V): (r: (State<K, V>, Option<V>))
    ensures r.1.Some? <==> k in st.entries
    ensures k in st.entries ==> r.1.value == st.entries[k]
    ensures k in r.0.entries ==> r.0.entries[k] == v
    ensures forall x :: x in r.0.entries && x != k ==> x in st.entries && r.0.entries[x] == st.entries[x]
    ensures k in st.entries ==> r.0.entries.Keys == st.entries.Keys
  {
    if k in st.entries then
      (State(Touch(st.order, k), st.entries[k := v]), Some(st.entries[k]))
    else
      var inserted := State(st.order + [k], st.entries[k := v]);
      if |inserted.entries| > maxEntries then
        (State(inserted.order[1..], inserted.entries - {inserted.order[0]}), None)
      else
        (inserted, None)
  }

  /** get keeps the order and the map in step. */
  lemma GetConsistent<K(!new), V>(st: State<K, V>, k: K)
    requires Consistent(st)
    ensures Consistent(GetSpec(st, k).0)
    ensures GetSpec(st, k).0.entries == st.entries
  {
    if k in st.entries {
      RemovePresent(st.order, k);
      TouchNoDuplicates(st.order, k);
    }
  }

  lemma TouchNoDuplicates<K(!new)>(order: seq<K>, k: K)
    requires NoDuplicates(Remove(order, k))
    ensures NoDuplicates(Touch(order, k))
  {
    var r := Remove(order, k);
    assert k !in r;
    forall i, j | 0 <= i < j < |r| + 1
      ensures Touch(order, k)[i] != Touch(order, k)[j]
    {
      if j == |r| {
        assert Touch(order, k)[i] == r[i];
      } else {
        assert Touch(order, k)[i] == r[i] && Touch(order, k)[j] == r[j];
      }
    }
  }

  lemma AppendNoDuplicates<K(!new)>(order: seq<K>, k: K)
    requires NoDuplicates(order) && k !in order
    ensures NoDuplicates(order + [k])
  {
    forall i, j | 0 <= i < j < |order| + 1
      ensures (order + [k])[i] != (order + [k])[j]
    {
      assert (order + [k])[i] == order[i];
    }
  }

  /** put keeps the order and the map in step. */
  lemma PutConsistent<K(!new), V>(st: State<K, V>, maxEntries: int, k: K, v: V)
    requires Consistent(st)
    ensures Consistent(PutSpec(st, maxEntries, k, v).0)
  {
    if k in st.entries {
      RemovePresent(st.order, k);
      TouchNoDuplicates(st.order, k);
    } else {
      var order := st.order + [k];
      AppendNoDuplicates(st.order, k);
      var inserted := State(order, st.entries[k := v]);
      assert Consistent(inserted);
      if |inserted.entries| > maxEntries {
        var e := order[0];
        assert NoDuplicates(order[1..]);
        forall x
          ensures x in order[1..] <==> x in order && x != e
        {
          if x in order && x != e {
            var i :| 0 <= i < |order| && order[i] == x;
            assert order[1..][i - 1] == x;
          }
        }
      }
    }
  }

  /** With room for at least one entry, the cache never grows past maxEntries. */
  lemma SizeBound<K(!new), V>(st: State<K, V>, maxEntries: int, k: K, v: V)
    requires Consistent(st) && maxEntries >= 1 && |st.entries| <= maxEntries
    ensures |PutSpec(st, maxEntries, k, v).0.entries| <= maxEntries
  {
    if k !in st.entries {
      var order := st.order + [k];
      var grown := st.entries[k := v];
      assert |grown| == |st.entries| + 1;
      if |grown| > maxEntries {
        assert order[0] in grown;
        assert |grown - {order[0]}| == |grown| - 1;
      }
    }
  }

  /** With room for at least one entry, the key just put is present with its new value
      and is the most recently used. */
  lemma PutKeyPresent<K(!new), V>(st: State<K, V>, maxEntries: int, k: K, v: V)
    requires Consistent(st) && maxEntries >= 1
    ensures var after := PutSpec(st, maxEntries, k, v).0;
      k in after.entries && after.entries[k] == v &&
      |after.order| > 0 && after.order[|after.order| - 1] == k
  {
    if k !in st.entries {
      var order := st.order + [k];
      if |st.entries[k := v]| > maxEntries {
        assert |st.entries[k := v]| == |st.entries| + 1;
        SizeIsOrderLength(st);
        assert |st.order| >= 1;
        assert order[0] == st.order[0] != k;
        assert order[1..][|order| - 2] == k;
      }
    }
  }

  /** A put evicts at most one key, and only the least recently used one; every key
      that stays keeps its value unless it is the key put. */
  lemma EvictsOnlyEldest<K(!new), V>(st: State<K, V>, maxEntries: int, k: K, v: V)
    requires Consistent(st)
    ensures var after := PutSpec(st, maxEntries, k, v).0;
      (forall x :: x in st.entries && x !in after.entries ==> x == st.order[0]) &&
      (forall x :: x in after.entries && x != k ==> x in st.entries && after.entries[x] == st.entries[x])
  {
  }

  /** A put of a new key into a full cache evicts the least recently used key. */
  lemma EvictsWhenOverflowing<K(!new), V>(st: State<K, V>, maxEntries: int, k: K, v: V)
    requires Consistent(st) && k !in st.entries && |st.entries| + 1 > maxEntries && st.order != []
    ensures var after := PutSpec(st, maxEntries, k, v).0;
      st.order[0] !in after.entries && after.order == st.order[1..] + [k]
  {
    assert |st.entries[k := v]| == |st.entries| + 1;
    assert (st.order + [k])[1..] == st.order[1..] + [k];
  }

  /** A put of a new key that still fits evicts nothing: the key is appended as the
      most recently used, and every entry already there stays. This is the other half
      of removeEldestEntry: eviction happens only when the size exceeds maxEntries. */
  lemma NoEvictionWithinBound<K(!new), V>(st: State<K, V>, maxEntries: int, k: K, v: V)
    requires Consistent(st) && k !in st.entries && |st.entries| + 1 <= maxEntries
    ensures var after := PutSpec(st, maxEntries, k, v).0;
      after.order == st.order + [k] && after.entries == st.entries[k := v]
  {
    assert |st.entries[k := v]| == |st.entries| + 1;
  }

  /** Reading an entry protects it: once k has been read, the put of a new key evicts
      some other entry, if any, as long as k is not the only entry. */
  lemma ReadProtects<K(!new), V>(st: State<K, V>, maxEntries: int, k: K, x: K, v: V)
    requires Consistent(st) && k in st.entries && x !in st.entries && |st.entries| >= 2
    ensures var after := PutSpec(GetSpec(st, k).0, maxEntries, x, v).0;
      k in after.entries && after.entries[k] == st.entries[k]
  {
    var read := GetSpec(st, k).0;
    GetConsistent(st, k);
    SizeIsOrderLength(read);
    assert |read.order| >= 2;
    assert read.order[|read.order| - 1] == k;
    assert read.order[0] != k;
    EvictsOnlyEldest(read, maxEntries, x, v);
  }

  /** The keys other than the one put keep their relative order: a put either leaves
      them as they were or drops the eldest. */
  lemma PutKeepsRelativeOrder<K(!new), V>(st: State<K, V>, maxEntries: int, k: K, v: V)
    requires Consistent(st)
    ensures var after := PutSpec(st, maxEntries, k, v).0;
      Remove(after.order, k) == Remove(st.order, k) ||
      (st.order != [] && Remove(after.order, k) == st.order[1..])
  {
    if k !in st.entries {
      var order := st.order + [k];
      RemoveLast(st.order, k);
      if |st.entries[k := v]| > maxEntries {
        if st.order == [] {
          assert order[1..] == [];
        } else {
          assert order[1..] == st.order[1..] + [k];
          assert k !in st.order[1..];
          RemoveLast(st.order[1..], k);
        }
      }
    } else {
      RemoveLast(Remove(st.order, k), k);
    }
  }

  lemma {:induction false} RemoveLast<K(!new)>(order: seq<K>, k: K)
    requires k !in order
    ensures Remove(order + [k], k) == order
  {
    if order == [] {
      assert Remove([k], k) == [] + Remove([k][1..], k);
    } else {
      assert (order + [k])[1..] == order[1..] + [k];
      RemoveLast(order[1..], k);
    }
  }

  /** A read of a present key moves it to the most recently used end and leaves the
      other keys in their order. */
  lemma GetTouches<K(!new), V>(st: State<K, V>, k: K)
    requires Consistent(st) && k in st.entries
    ensures var after := GetSpec(st, k).0;
      after.order[|after.order| - 1] == k && Remove(after.order, k) == Remove(st.order, k)
  {
    RemoveLast(Remove(st.order, k), k);
  }

  /** LinkedHashMap<K, V> in access order with the removeEldestEntry override. */
  class LruMap<K(==,!new), V> {
    /** The bound removeEldestEntry compares the size with. */
    const maxEntries: int
    /** Keys from least to most recently used. */
    var order: seq<K>
    var entries: map<K, V>

    ghost predicate Valid()
      reads this
    {
      Consistent(State(order, entries))
    }

    /** LruMap(maxEntries, initialCapacity, loadFactor): the capacity argument is
        ignored in favour of 16, and the load factor only tunes hashing. */
    constructor WithLoadFactor(maxEntries: int, initialCapacity: int, loadFactor: real)
      requires loadFactor > 0.0
      ensures Valid() && this.maxEntries == maxEntries && order == [] && entries == map[]
    {
      this.maxEntries := maxEntries;
      order := [];
      entries := map[];
    }

    /** LruMap(maxEntries, initialCapacity): the capacity argument is ignored. */
    constructor WithCapacity(maxEntries: int, initialCapacity: int)
      ensures Valid() && this.maxEntries == maxEntries && order == [] && entries == map[]
    {
      this.maxEntries := maxEntries;
      order := [];
      entries := map[];
    }

    /** LruMap(maxEntries). */
    constructor (maxEntries: int)
      ensures Valid() && this.maxEntries == maxEntries && order == [] && entries == map[]
    {
      this.maxEntries := maxEntries;
      order := [];
      entries := map[];
    }

    /** removeEldestEntry: whether the map now holds more than maxEntries entries. */
    function RemoveEldestEntry(): (evict: bool)
      reads this
      ensures evict <==> |entries| > maxEntries
    {
      |entries| > maxEntries
    }

    method Get(k: K) returns (r: Option<V>)
      requires Valid()
      modifies this`order
      ensures Valid()
      ensures (State(order, entries), r) == GetSpec(old(State(order, entries)), k)
    {
      GetConsistent(State(order, entries), k);
      if k in entries {
        order := Touch(order, k);
        r := Some(entries[k]);
      } else {
        r := None;
      }
    }

    /** put: the hash table's insertion, then the afterNodeInsertion step that asks
        removeEldestEntry whether to drop the head of the order. */
    method Put(k: K, v: V) returns (previous: Option<V>)
      requires Valid()
      modifies this`order, this`entries
      ensures Valid()
      ensures (State(order, entries), previous) == PutSpec(old(State(order, entries)), maxEntries, k, v)
    {
      PutConsistent(State(order, entries), maxEntries, k, v);
      if k in entries {
        previous := Some(entries[k]);
        entries := entries[k := v];
        order := Touch(order, k);
        return;
      }
      previous := None;
      entries := entries[k := v];
      order := order + [k];
      var eldest := order[0];
      if RemoveEldestEntry() {
        entries := entries - {eldest};
        order := order[1..];
      }
    }
  }
}
