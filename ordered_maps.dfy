/** The JavaScript `Map` as the model layer uses it: integer keys, values
    enumerated in insertion order, `set` on a present key replacing the value
    in place, `delete` removing the key and keeping the order of the rest. */
module OrderedMaps {
  import opened JsValues
  import opened Seqs

  datatype OrderedMap<V> = OrderedMap(keys: seq<int>, entries: map<int, V>)
  {
    /** The key order lists every key exactly once. */
    ghost predicate Valid()
    {
      && Distinct(keys)
      && (forall i :: 0 <= i < |keys| ==> keys[i] in entries)
      && (forall k :: k in entries ==> k in keys)
    }

    /** `map.get(k)`: the stored value, or `undefined`. */
    function Get(k: int): (r: Option<V>)
      requires Valid()
      ensures r.Some? <==> k in keys
      ensures r.Some? ==> k in entries && r.value == entries[k]
    {
      if k in entries then Some(entries[k]) else None
    }

    /** `[...map.values()]`: the values in key order. */
    function Values(): (vs: seq<V>)
      requires Valid()
      ensures |vs| == |keys|
      ensures forall i :: 0 <= i < |keys| ==> vs[i] == entries[keys[i]]
      ensures forall k :: k in entries ==> entries[k] in vs
    {
      var vs := seq(|keys|, i requires 0 <= i < |keys| => entries[keys[i]]);
      assert forall k :: k in entries ==> entries[k] in vs by {
        forall k | k in entries ensures entries[k] in vs {
          var i :| 0 <= i < |keys| && keys[i] == k;
          assert vs[i] == entries[k];
        }
      }
      vs
    }

    /** `map.set(k, v)`. */
    function Set(k: int, v: V): (m: OrderedMap<V>)
      requires Valid()
      ensures m.Valid()
      ensures m.Get(k) == Some(v)
      ensures forall k' :: k' != k ==> m.Get(k') == Get(k')
      ensures k in keys ==> m.keys == keys
      ensures k !in keys ==> m.keys == keys + [k]
    {
      OrderedMap(if k in entries then keys else keys + [k], entries[k := v])
    }

    /** `map.delete(k)`; a missing key leaves the map as it is. */
    function Delete(k: int): (m: OrderedMap<V>)
      requires Valid()
      ensures m.Valid()
      ensures m.Get(k) == None
      ensures forall k' :: k' != k ==> m.Get(k') == Get(k')
      ensures m.keys == RemoveAll(keys, k)
    {
      RemoveAllKeepsDistinct(keys, k);
      var ks := RemoveAll(keys, k);
      assert forall i :: 0 <= i < |ks| ==> ks[i] in keys && ks[i] != k;
      OrderedMap(ks, entries - {k})
    }

    /** `for (const [k, v] of pairs) map.set(k, v)`. */
    function SetAll(pairs: seq<(int, V)>): (m: OrderedMap<V>)
      requires Valid()
      ensures m.Valid()
      ensures |keys| <= |m.keys| && m.keys[..|keys|] == keys
      ensures forall k :: k in m.keys <==> k in keys || exists i :: 0 <= i < |pairs| && pairs[i].0 == k
      decreases |pairs|
    {
      if pairs == [] then this
      else
        var init := SetAll(pairs[..|pairs| - 1]);
        var last := pairs[|pairs| - 1];
        assert forall i :: 0 <= i < |pairs| - 1 ==> pairs[..|pairs| - 1][i] == pairs[i];
        init.Set(last.0, last.1)
    }
  }

  /** The empty `new Map()`. */
  function Empty<V>(): (m: OrderedMap<V>)
    ensures m.Valid() && m.Values() == []
  {
    OrderedMap([], map[])
  }

  /** Setting a new key appends its value to the enumeration. */
  lemma SetNewKeyAppends<V>(m: OrderedMap<V>, k: int, v: V)
    requires m.Valid() && k !in m.keys
    ensures m.Set(k, v).Values() == m.Values() + [v]
  {
  }

  /** Setting a present key replaces its value where it stands. */
  lemma SetPresentKeyReplaces<V>(m: OrderedMap<V>, j: nat, v: V)
    requires m.Valid() && j < |m.keys|
    ensures m.Set(m.keys[j], v).Values() == m.Values()[j := v]
  {
    var k := m.keys[j];
    forall i | 0 <= i < |m.keys| ensures m.Set(k, v).Values()[i] == m.Values()[j := v][i] {
      if i != j {
        assert m.keys[i] != k;
      }
    }
  }

  /** Deleting the key at position `j` cuts its value out of the enumeration
      and keeps the order of the others. */
  lemma DeleteCutsOut<V>(m: OrderedMap<V>, j: nat)
    requires m.Valid() && j < |m.keys|
    ensures m.Delete(m.keys[j]).Values() == m.Values()[..j] + m.Values()[j + 1..]
  {
    var k := m.keys[j];
    RemoveAllDistinct(m.keys, j);
    var d := m.Delete(k);
    assert d.keys == m.keys[..j] + m.keys[j + 1..];
    forall i | 0 <= i < |d.keys| ensures d.Values()[i] == (m.Values()[..j] + m.Values()[j + 1..])[i] {
      if i < j {
        assert d.keys[i] == m.keys[i];
      } else {
        assert d.keys[i] == m.keys[i + 1];
      }
    }
  }

  /** The value the last pair with key `k` carries, if any pair has that
      key. */
  function LastFor<V>(pairs: seq<(int, V)>, k: int): Option<V>
  {
    if pairs == [] then None
    else if pairs[|pairs| - 1].0 == k then Some(pairs[|pairs| - 1].1)
    else LastFor(pairs[..|pairs| - 1], k)
  }

  /** After a sequence of `set`s, a key set by some pair holds the value of
      the last such pair, and every other key keeps its old value. */
  lemma {:induction false} SetAllGet<V>(m: OrderedMap<V>, pairs: seq<(int, V)>, k: int)
    requires m.Valid()
    ensures m.SetAll(pairs).Get(k) == if LastFor(pairs, k).Some? then LastFor(pairs, k) else m.Get(k)
    decreases |pairs|
  {
    if pairs != [] {
      SetAllGet(m, pairs[..|pairs| - 1], k);
    }
  }

  /** Extending the pairs by one extends the fold by one `set`. */
  lemma SetAllStep<V>(m: OrderedMap<V>, pairs: seq<(int, V)>, i: nat)
    requires m.Valid() && i < |pairs|
    ensures m.SetAll(pairs[..i + 1]) == m.SetAll(pairs[..i]).Set(pairs[i].0, pairs[i].1)
  {
    assert pairs[..i + 1][..i] == pairs[..i];
  }
}
