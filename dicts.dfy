/**
 * Python's `dict` keeps its keys in insertion order: assigning to an existing
 * key keeps that key where it is, a new key goes to the end, and `del` takes
 * the key out of the order. Several components depend on that order (the
 * cache breaks eviction ties by it, the strategy registry searches in it), so
 * a dictionary here is a key sequence beside a map.
 */
module Dicts {
  import opened Wrappers

  ghost predicate Distinct<K>(s: seq<K>)
  {
    forall i, j | 0 <= i < j < |s| :: s[i] != s[j]
  }

  /** `s` with every occurrence of `x` taken out, the rest in order. */
  function Without<K(==)>(s: seq<K>, x: K): (r: seq<K>)
    ensures forall y | y in r :: y in s && y != x
    ensures forall y | y in s && y != x :: y in r
    ensures |r| <= |s|
    ensures Distinct(s) ==> Distinct(r)
    ensures x !in s ==> r == s
  {
    if s == [] then []
    else if s[0] == x then Without(s[1..], x)
    else
      var rest := Without(s[1..], x);
      assert Distinct(s) ==> Distinct(s[1..]) && s[0] !in rest by {
        if Distinct(s) {
          forall i | 0 < i < |s| ensures s[i] != s[0] {}
        }
      }
      [s[0]] + rest
  }

  datatype Dict<K(==), V> = Dict(keys: seq<K>, items: map<K, V>)
  {
    /** Every key occurs once in the order, and the order lists exactly the mapped keys. */
    ghost predicate Valid()
    {
      && Distinct(keys)
      && (forall k | k in items :: k in keys)
      && (forall i | 0 <= i < |keys| :: keys[i] in items)
    }

    function Get(k: K): (r: Option<V>)
      ensures r.Some? <==> k in items
      ensures r.Some? ==> r.value == items[k]
    {
      if k in items then Some(items[k]) else None
    }

    /** `d[k] = v`. */
    function Put(k: K, v: V): (r: Dict<K, V>)
      ensures Valid() ==> r.Valid()
      ensures r.items == items[k := v]
      ensures r.keys == if k in items then keys else keys + [k]
    {
      if k in items then Dict(keys, items[k := v]) else Dict(keys + [k], items[k := v])
    }

    /** `del d[k]`, for a key that may be absent. */
    function Remove(k: K): (r: Dict<K, V>)
      requires Valid()
      ensures r.Valid()
      ensures r.items == items - {k}
      ensures r.keys == Without(keys, k)
      ensures |r.keys| == if k in items then |keys| - 1 else |keys|
    {
      RemoveShortens(keys, k);
      RemoveValid(this, k);
      Dict(Without(keys, k), items - {k})
    }
  }

  function Empty<K(==), V>(): (r: Dict<K, V>)
    ensures r.Valid() && r.keys == [] && r.items == map[]
  {
    Dict([], map[])
  }

  /** Taking a key out of both halves of a well-formed dict keeps them in step. */
  lemma RemoveValid<K, V>(d: Dict<K, V>, k: K)
    requires d.Valid()
    ensures Dict(Without(d.keys, k), d.items - {k}).Valid()
  {
    var ks := Without(d.keys, k);
    forall i | 0 <= i < |ks| ensures ks[i] in d.items - {k} {
      assert ks[i] in ks;
    }
  }

  /** Dropping the element just appended gives back the prefix. */
  lemma DropSnoc<T>(p: seq<T>, k: T)
    ensures var q := p + [k]; q != [] && q[..|q| - 1] == p && q[|q| - 1] == k
  {
    assert (p + [k])[..|p|] == p;
  }

  /** A prefix one longer is the prefix with the next element appended. */
  lemma TakeSnoc<T>(s: seq<T>, i: nat)
    requires i < |s|
    ensures s[..i + 1] == s[..i] + [s[i]]
  {
  }

  /** Two assignments to one key of a plain map: the second wins. */
  lemma UpdateTwice<K, V>(m: map<K, V>, k: K, a: V, b: V)
    ensures m[k := a][k := b] == m[k := b]
  {
  }

  /** Assigning a key its own value changes nothing. */
  lemma UpdateSame<K, V>(m: map<K, V>, k: K)
    requires k in m
    ensures m[k := m[k]] == m
  {
  }

  /** A two-entry dict literal `{a: va, b: vb}`. */
  function Pair<K(==), V>(a: K, va: V, b: K, vb: V): (r: Dict<K, V>)
    requires a != b
    ensures r.Valid() && r.keys == [a, b] && r.items == map[a := va, b := vb]
  {
    Dict([a, b], map[a := va, b := vb])
  }

  lemma {:induction false} RemoveShortens<K>(s: seq<K>, x: K)
    requires Distinct(s)
    ensures |Without(s, x)| == if x in s then |s| - 1 else |s|
  {
    if s != [] {
      assert Distinct(s[1..]);
      if s[0] == x {
        assert x !in s[1..];
      } else {
        assert x in s <==> x in s[1..];
      }
      RemoveShortens(s[1..], x);
    }
  }

  /** `len(d)`: a well-formed dict has as many entries as its key order has positions. */
  lemma CountKeys<K, V>(d: Dict<K, V>)
    requires d.Valid()
    ensures |d.items| == |d.keys|
  {
    DistinctSeqCard(d.keys);
    assert d.items.Keys == set k | k in d.keys;
  }

  lemma {:induction false} DistinctSeqCard<K>(s: seq<K>)
    requires Distinct(s)
    ensures |set k | k in s| == |s|
  {
    if s != [] {
      assert Distinct(s[1..]);
      DistinctSeqCard(s[1..]);
      assert (set k | k in s) == {s[0]} + (set k | k in s[1..]);
      assert s[0] !in s[1..];
    }
  }

  /** Adding a new key and deleting it again gives back the original dictionary, order included. */
  lemma PutThenRemove<K, V>(d: Dict<K, V>, k: K, v: V)
    requires d.Valid() && k !in d.items
    ensures d.Put(k, v).Remove(k) == d
  {
    assert k !in d.keys;
    WithoutAppended(d.keys, k);
    assert d.items[k := v] - {k} == d.items;
  }

  lemma {:induction false} WithoutAppended<K>(s: seq<K>, x: K)
    requires x !in s
    ensures Without(s + [x], x) == s
  {
    if s == [] {
      assert [x][1..] == [];
    } else {
      assert (s + [x])[1..] == s[1..] + [x];
      WithoutAppended(s[1..], x);
    }
  }

  /** Assigning a key twice is assigning it the second value, in the first assignment's place. */
  lemma PutPut<K, V>(d: Dict<K, V>, k: K, v: V, w: V)
    ensures d.Put(k, v).Put(k, w) == d.Put(k, w)
  {
    assert d.items[k := v][k := w] == d.items[k := w];
  }
}
