/** `java.util.LinkedHashMap` as the registries use it: a map together with
    the sequence of its keys in insertion order. */
module LinkedMaps {
  import opened Wrappers

  ghost predicate Distinct<K>(s: seq<K>)
  {
    forall i, j :: 0 <= i < j < |s| ==> s[i] != s[j]
  }

  /** `s` with every occurrence of `k` dropped, the rest in their order. */
  function Without<K(==)>(s: seq<K>, k: K): (r: seq<K>)
    ensures forall x | x in r :: x in s && x != k
    ensures forall x | x in s && x != k :: x in r
  {
    if s == [] then []
    else if s[0] == k then Without(s[1..], k)
    else [s[0]] + Without(s[1..], k)
  }

  datatype LinkedMap<K(==), V> = LinkedMap(order: seq<K>, entries: map<K, V>)
  {
    /** Every key occurs once in the order, and the order holds exactly the keys. */
    ghost predicate Valid()
    {
      && Distinct(order)
      && (forall k | k in entries :: k in order)
      && (forall i | 0 <= i < |order| :: order[i] in entries)
    }

    /** `size()`: the length of the iteration order. */
    function Size(): nat
    {
      |order|
    }

    /** `get(k)`; `None` stands for the null a missing key yields. */
    function Get(k: K): Option<V>
    {
      if k in entries then Some(entries[k]) else None
    }

    /** `put(k, v)`: a new key goes to the end of the order; an existing key keeps its place. */
    function Put(k: K, v: V): LinkedMap<K, V>
    {
      LinkedMap(if k in entries then order else order + [k], entries[k := v])
    }

    /** `remove(k)`; nothing happens when `k` is absent. */
    function Remove(k: K): LinkedMap<K, V>
    {
      LinkedMap(Without(order, k), entries - {k})
    }
  }

  /** `new LinkedHashMap()` and the result of `clear()`. */
  function Empty<K(==), V>(): (m: LinkedMap<K, V>)
    ensures m.Valid() && m.Size() == 0 && m.order == []
  {
    LinkedMap([], map[])
  }

  lemma {:induction false} DistinctCard<K>(s: seq<K>)
    requires Distinct(s)
    ensures |set x | x in s| == |s|
  {
    if s != [] {
      var rest := s[1..];
      assert Distinct(rest);
      DistinctCard(rest);
      assert (set x | x in s) == (set x | x in rest) + {s[0]};
      assert s[0] !in rest;
    }
  }

  /** The size is the number of distinct keys. */
  lemma SizeIsEntryCount<K, V>(m: LinkedMap<K, V>)
    requires m.Valid()
    ensures m.Size() == |m.entries|
  {
    assert m.entries.Keys == set x | x in m.order;
    DistinctCard(m.order);
  }

  /** Putting a new key appends it and adds one entry; putting an existing key
      keeps the order and the size; either way the key now maps to the value
      and every other key is untouched. */
  lemma PutProperties<K, V>(m: LinkedMap<K, V>, k: K, v: V)
    requires m.Valid()
    ensures m.Put(k, v).Valid()
    ensures m.Put(k, v).Get(k) == Some(v)
    ensures forall other :: other != k ==> m.Put(k, v).Get(other) == m.Get(other)
    ensures k !in m.entries ==> m.Put(k, v).order == m.order + [k] && m.Put(k, v).Size() == m.Size() + 1
    ensures k in m.entries ==> m.Put(k, v).order == m.order && m.Put(k, v).Size() == m.Size()
  {
  }

  lemma {:induction false} WithoutAbsent<K>(s: seq<K>, k: K)
    requires k !in s
    ensures Without(s, k) == s
  {
    if s != [] {
      assert s == [s[0]] + s[1..];
      WithoutAbsent(s[1..], k);
    }
  }

  lemma {:induction false} WithoutAt<K>(s: seq<K>, k: K, i: nat)
    requires Distinct(s) && i < |s| && s[i] == k
    ensures Without(s, k) == s[..i] + s[i + 1..]
  {
    if i == 0 {
      assert k !in s[1..];
      WithoutAbsent(s[1..], k);
    } else {
      assert Distinct(s[1..]);
      WithoutAt(s[1..], k, i - 1);
      assert s[1..][..i - 1] == s[1..i];
      assert s[1..][i..] == s[i + 1..];
      assert s[..i] == [s[0]] + s[1..i];
    }
  }

  lemma DistinctCons<K>(x: K, t: seq<K>)
    requires x !in t && Distinct(t)
    ensures Distinct([x] + t)
  {
    var s := [x] + t;
    forall i, j | 0 <= i < j < |s| ensures s[i] != s[j] {
      if i == 0 {
        assert s[j] == t[j - 1];
      } else {
        assert s[i] == t[i - 1] && s[j] == t[j - 1];
      }
    }
  }

  lemma {:induction false} WithoutDistinct<K>(s: seq<K>, k: K)
    requires Distinct(s)
    ensures Distinct(Without(s, k))
  {
    if s != [] {
      assert Distinct(s[1..]);
      WithoutDistinct(s[1..], k);
      if s[0] != k {
        assert s[0] !in s[1..];
        DistinctCons(s[0], Without(s[1..], k));
      }
    }
  }

  /** Removing a key keeps the map well formed and, for a present key,
      shrinks it by one. */
  lemma RemoveValid<K, V>(m: LinkedMap<K, V>, k: K)
    requires m.Valid()
    ensures m.Remove(k).Valid()
    ensures k in m.entries ==> m.Remove(k).Size() == m.Size() - 1
  {
    WithoutDistinct(m.order, k);
    var r := m.Remove(k);
    assert forall i | 0 <= i < |r.order| :: r.order[i] in r.order;
    if k in m.entries {
      var i :| 0 <= i < |m.order| && m.order[i] == k;
      WithoutAt(m.order, k, i);
    }
  }

  /** Removing a key makes `get` of it null, leaves every other key and its
      value alone, and is a no-op for an absent key. */
  lemma RemoveProperties<K, V>(m: LinkedMap<K, V>, k: K)
    requires m.Valid()
    ensures m.Remove(k).Valid()
    ensures m.Remove(k).Get(k) == None
    ensures forall other :: other != k ==> m.Remove(k).Get(other) == m.Get(other)
    ensures k !in m.entries ==> m.Remove(k) == m
    ensures k in m.entries ==> m.Remove(k).Size() == m.Size() - 1
  {
    RemoveValid(m, k);
    if k !in m.entries {
      RemoveAbsent(m, k);
    }
  }

  lemma RemoveAbsent<K, V>(m: LinkedMap<K, V>, k: K)
    requires m.Valid() && k !in m.entries
    ensures m.Remove(k) == m
  {
    WithoutAbsent(m.order, k);
    assert m.entries - {k} == m.entries;
  }

  /** Removing a present key closes the gap it leaves in the order: the keys
      before and after it keep their relative places. */
  lemma RemoveKeepsOrder<K, V>(m: LinkedMap<K, V>, k: K, i: nat)
    requires m.Valid() && i < |m.order| && m.order[i] == k
    ensures m.Remove(k).order == m.order[..i] + m.order[i + 1..]
  {
    WithoutAt(m.order, k, i);
  }
}
