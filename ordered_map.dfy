/**
  An insertion-ordered dictionary with the semantics of a JavaScript `Map`:
  `set` of a new key appends it to the iteration order, `set` of a key already
  present replaces its value and keeps its position, and `delete` drops the key
  from the order and keeps the other keys in their order.
 */
module OrderedMap {
  import opened Wrappers

  /** No element of `s` occurs twice. */
  ghost predicate Distinct<K>(s: seq<K>) {
    forall i, j :: 0 <= i < j < |s| ==> s[i] != s[j]
  }

  /** `s` with every occurrence of `k` taken out, the rest kept in order. */
  function Without<K(==,!new)>(s: seq<K>, k: K): (r: seq<K>)
    ensures forall x :: x in r <==> x in s && x != k
    ensures Distinct(s) ==> Distinct(r)
    ensures |r| <= |s|
  {
    if s == [] then []
    else if s[0] == k then Without(s[1..], k)
    else
      var rest := Without(s[1..], k);
      assert Distinct(s) ==> s[0] !in s[1..] && Distinct(s[1..]);
      [s[0]] + rest
  }

  /** Taking out a key that is not there changes nothing. */
  lemma {:induction false} WithoutAbsent<K(!new)>(s: seq<K>, k: K)
    requires k !in s
    ensures Without(s, k) == s
  {
    if s != [] {
      WithoutAbsent(s[1..], k);
      assert s == [s[0]] + s[1..];
    }
  }

  /** In a sequence without repeats, taking out the key at position `i` cuts out exactly that position. */
  lemma {:induction false} WithoutAt<K(!new)>(s: seq<K>, i: nat)
    requires Distinct(s) && i < |s|
    ensures Without(s, s[i]) == s[..i] + s[i + 1..]
  {
    if i == 0 {
      assert s[i] !in s[1..];
      WithoutAbsent(s[1..], s[i]);
    } else {
      assert s[1..][i - 1] == s[i];
      WithoutAt(s[1..], i - 1);
      assert s[1..][..i - 1] == s[1..i];
      assert s[1..][i..] == s[i + 1..];
      assert s[..i] == [s[0]] + s[1..i];
    }
  }

  /** `WithoutAt` for whichever position holds `k`. */
  lemma WithoutEachAt<K(!new)>(s: seq<K>, k: K)
    requires Distinct(s)
    ensures forall i :: 0 <= i < |s| && s[i] == k ==> Without(s, k) == s[..i] + s[i + 1..]
  {
    forall i | 0 <= i < |s| && s[i] == k {
      WithoutAt(s, i);
    }
  }

  /** The dictionary: keys in insertion order, and the key-value entries. */
  datatype OMap<K(==,!new), V> = OMap(order: seq<K>, entries: map<K, V>)
  {
    /** The order lists every key exactly once. */
    ghost predicate Valid() {
      Distinct(order) && forall k :: k in entries <==> k in order
    }

    /** `Map.prototype.get`: the value under `k`, or `undefined`. */
    function Get(k: K): (r: Option<V>)
      ensures r.Some? <==> k in entries
      ensures r.Some? ==> r.value == entries[k]
    {
      if k in entries then Some(entries[k]) else None
    }

    /** `Map.prototype.set`. */
    function Set(k: K, v: V): (r: OMap<K, V>)
      requires Valid()
      ensures r.Valid()
      ensures r.entries == entries[k := v]
      ensures k in entries ==> r.order == order
      ensures k !in entries ==> r.order == order + [k]
    {
      OMap(if k in entries then order else order + [k], entries[k := v])
    }

    /** `Map.prototype.delete`. */
    function Delete(k: K): (r: OMap<K, V>)
      requires Valid()
      ensures r.Valid()
      ensures r.entries == entries - {k}
      ensures k !in entries ==> r == this
      ensures forall i :: 0 <= i < |order| && order[i] == k ==> r.order == order[..i] + order[i + 1..]
    {
      if k in entries then
        WithoutEachAt(order, k);
        OMap(Without(order, k), entries - {k})
      else
        assert entries - {k} == entries;
        this
    }
  }

  /** Updating a key's value and then deleting the key is the same as deleting it. */
  lemma SetThenDelete<K(!new), V>(m: OMap<K, V>, k: K, v: V)
    requires m.Valid() && k in m.entries
    ensures m.Set(k, v).Delete(k) == m.Delete(k)
  {
    assert m.Set(k, v).entries - {k} == m.entries - {k};
  }
}
