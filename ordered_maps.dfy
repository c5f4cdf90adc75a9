/** A JavaScript `Map` keyed by strings: `set` on an existing key replaces the
  * value in place, `set` on a new key appends it, `delete` removes it, and
  * `values()` iterates in insertion order. */
module OrderedMaps {
  import opened Wrappers

  /** No key occurs twice. */
  predicate Distinct(s: seq<string>)
    decreases |s|
  {
    s == [] || (s[0] !in s[1..] && Distinct(s[1..]))
  }

  /** Appending a key that is not there yet keeps the keys distinct. */
  lemma {:induction false} DistinctAppend(s: seq<string>, k: string)
    requires Distinct(s) && k !in s
    ensures Distinct(s + [k])
    decreases |s|
  {
    if s != [] {
      assert (s + [k])[1..] == s[1..] + [k];
      DistinctAppend(s[1..], k);
    }
  }

  /** Distinct keys sit at distinct positions. */
  lemma {:induction false} DistinctAt(s: seq<string>, i: nat, j: nat)
    requires Distinct(s) && i < j < |s|
    ensures s[i] != s[j]
    decreases |s|
  {
    if i == 0 {
      assert s[j] == s[1..][j - 1];
    } else {
      DistinctAt(s[1..], i - 1, j - 1);
    }
  }

  datatype RawMap<V> = RawMap(keys: seq<string>, entries: map<string, V>)

  predicate WellFormed<V>(m: RawMap<V>)
  {
    Distinct(m.keys) && (forall k :: k in m.entries ==> k in m.keys) && (forall k :: k in m.keys ==> k in m.entries)
  }

  type OrderedMap<V> = m: RawMap<V> | WellFormed(m) witness RawMap([], map[])

  function Empty<V>(): (m: OrderedMap<V>)
    ensures m.keys == [] && m.entries == map[]
  {
    RawMap([], map[])
  }

  /** `m.get(k)`. */
  function Get<V>(m: OrderedMap<V>, k: string): (r: Option<V>)
    ensures r.Some? <==> k in m.keys
    ensures r.Some? ==> r.value == m.entries[k]
  {
    if k in m.entries then Some(m.entries[k]) else None
  }

  /** `m.set(k, v)`. */
  function Set<V>(m: OrderedMap<V>, k: string, v: V): (r: OrderedMap<V>)
    ensures r.entries == m.entries[k := v]
    ensures k in m.keys ==> r.keys == m.keys
    ensures k !in m.keys ==> r.keys == m.keys + [k]
  {
    if k in m.entries then RawMap(m.keys, m.entries[k := v])
    else
      DistinctAppend(m.keys, k);
      RawMap(m.keys + [k], m.entries[k := v])
  }

  /** The keys of `s` other than `k`, in their order. */
  function Without(s: seq<string>, k: string): (r: seq<string>)
    ensures forall x :: x in r <==> x in s && x != k
    ensures Distinct(s) ==> Distinct(r)
    ensures k !in s ==> r == s
    ensures |r| <= |s|
  {
    if s == [] then []
    else if s[0] == k then Without(s[1..], k)
    else
      var r := [s[0]] + Without(s[1..], k);
      assert r[1..] == Without(s[1..], k);
      r
  }

  /** `m.delete(k)`. */
  function Delete<V>(m: OrderedMap<V>, k: string): (r: OrderedMap<V>)
    ensures r.entries == m.entries - {k}
    ensures r.keys == Without(m.keys, k)
  {
    RawMap(Without(m.keys, k), m.entries - {k})
  }

  /** Setting a key to the value it already holds leaves the map as it was. */
  lemma SetSame<V>(m: OrderedMap<V>, k: string)
    requires k in m.entries
    ensures Set(m, k, m.entries[k]) == m
  {
    assert m.entries[k := m.entries[k]] == m.entries;
  }

  /** Deleting a key that is not there leaves the map as it was. */
  lemma DeleteAbsent<V>(m: OrderedMap<V>, k: string)
    requires k !in m.keys
    ensures Delete(m, k) == m
  {
    assert m.entries - {k} == m.entries;
  }

  /** `Array.from(m.values())`. */
  function Values<V>(m: OrderedMap<V>): (vs: seq<V>)
    ensures |vs| == |m.keys|
    ensures forall i :: 0 <= i < |m.keys| ==> vs[i] == m.entries[m.keys[i]]
  {
    seq(|m.keys|, i requires 0 <= i < |m.keys| => m.entries[m.keys[i]])
  }

  /** Replacing the value of a present key keeps the iteration order and
    * changes the value at that key's position only. */
  lemma ValuesAfterReplace<V>(m: OrderedMap<V>, k: string, v: V, i: nat)
    requires k in m.keys && i < |m.keys|
    ensures Values(Set(m, k, v))[i] == if m.keys[i] == k then v else Values(m)[i]
  {
  }

  /** Setting a new key puts its value after all the others. */
  lemma ValuesAfterInsert<V>(m: OrderedMap<V>, k: string, v: V)
    requires k !in m.keys
    ensures Values(Set(m, k, v)) == Values(m) + [v]
  {
    var r := Set(m, k, v);
    forall i | 0 <= i < |m.keys| ensures Values(r)[i] == Values(m)[i] {
      assert r.keys[i] == m.keys[i] != k;
    }
  }

  // ------------------------------------------------ grouping rows by key

  /** The map a loop builds that sets `val(x)` under `key(x)` for each `x`
    * whose key is present and not yet in the map: the first element with
    * each key wins. */
  function FirstByKey<T, V>(xs: seq<T>, key: T -> Option<string>, val: T -> V): OrderedMap<V>
  {
    if xs == [] then Empty()
    else
      var m := FirstByKey(xs[..|xs| - 1], key, val);
      var x := xs[|xs| - 1];
      match key(x)
      case None => m
      case Some(k) => if Get(m, k).Some? then m else Set(m, k, val(x))
  }

  /** Element `i` has a key no earlier element has. */
  predicate FirstWithKey<T>(xs: seq<T>, key: T -> Option<string>, i: int)
  {
    0 <= i < |xs| && key(xs[i]).Some?
    && forall j :: 0 <= j < i ==> key(xs[j]) != key(xs[i])
  }

  /** The values of the first `n` elements that are the first to carry
    * their key, in order. */
  function FirstValues<T, V>(xs: seq<T>, key: T -> Option<string>, val: T -> V, n: nat): seq<V>
    requires n <= |xs|
  {
    if n == 0 then []
    else FirstValues(xs, key, val, n - 1) + (if FirstWithKey(xs, key, n - 1) then [val(xs[n - 1])] else [])
  }

  lemma FirstByKeyStep<T, V>(xs: seq<T>, key: T -> Option<string>, val: T -> V)
    requires xs != []
    ensures forall k :: k in FirstByKey(xs, key, val).keys <==>
      k in FirstByKey(xs[..|xs| - 1], key, val).keys || key(xs[|xs| - 1]) == Some(k)
  {
  }

  /** The keys of the map are exactly the keys some element carries. */
  lemma {:induction false} FirstByKeyKeys<T, V>(xs: seq<T>, key: T -> Option<string>, val: T -> V, k: string)
    ensures k in FirstByKey(xs, key, val).keys <==> exists i :: 0 <= i < |xs| && key(xs[i]) == Some(k)
  {
    if xs != [] {
      var init := xs[..|xs| - 1];
      FirstByKeyKeys(init, key, val, k);
      FirstByKeyStep(xs, key, val);
      if exists i :: 0 <= i < |init| && key(init[i]) == Some(k) {
        var i :| 0 <= i < |init| && key(init[i]) == Some(k);
        assert key(xs[i]) == Some(k);
      }
      if exists i :: 0 <= i < |xs| && key(xs[i]) == Some(k) {
        var i :| 0 <= i < |xs| && key(xs[i]) == Some(k);
        if i < |init| { assert key(init[i]) == Some(k); }
      }
    }
  }

  /** Earlier elements do not see later ones. */
  lemma {:induction false} FirstValuesOfPrefix<T, V>(xs: seq<T>, key: T -> Option<string>, val: T -> V, n: nat, m: nat)
    requires m <= n <= |xs|
    ensures FirstValues(xs[..n], key, val, m) == FirstValues(xs, key, val, m)
  {
    if m > 0 {
      FirstValuesOfPrefix(xs, key, val, n, m - 1);
      assert FirstWithKey(xs[..n], key, m - 1) <==> FirstWithKey(xs, key, m - 1);
    }
  }

  /** The last element is the first with its key exactly when the map of
    * the elements before it lacks that key. */
  lemma LastIsFirstWithKey<T, V>(xs: seq<T>, key: T -> Option<string>, val: T -> V)
    requires xs != []
    ensures var n := |xs|; var k := key(xs[n - 1]);
      FirstWithKey(xs, key, n - 1) <==> k.Some? && k.value !in FirstByKey(xs[..n - 1], key, val).keys
  {
    var n := |xs|;
    var init := xs[..n - 1];
    if key(xs[n - 1]).Some? {
      FirstByKeyKeys(init, key, val, key(xs[n - 1]).value);
    }
    forall j | 0 <= j < n - 1 ensures key(init[j]) == key(xs[j]) { }
  }

  /** One more element appends its value exactly when its key is new. */
  lemma FirstByKeyValuesStep<T, V>(xs: seq<T>, key: T -> Option<string>, val: T -> V)
    requires xs != []
    ensures var n := |xs|; var m := FirstByKey(xs[..n - 1], key, val); var k := key(xs[n - 1]);
      Values(FirstByKey(xs, key, val)) == Values(m) + (if k.Some? && k.value !in m.keys then [val(xs[n - 1])] else [])
  {
    var n := |xs|;
    var m := FirstByKey(xs[..n - 1], key, val);
    var k := key(xs[n - 1]);
    if k.Some? && k.value !in m.keys {
      ValuesAfterInsert(m, k.value, val(xs[n - 1]));
    }
  }

  /** The values of the map are those of the elements that first carry each
    * key, in the order those elements come. */
  lemma {:induction false} FirstByKeyValues<T, V>(xs: seq<T>, key: T -> Option<string>, val: T -> V)
    ensures Values(FirstByKey(xs, key, val)) == FirstValues(xs, key, val, |xs|)
  {
    if xs != [] {
      var n := |xs|;
      var init := xs[..n - 1];
      FirstByKeyValues(init, key, val);
      FirstValuesOfPrefix(xs, key, val, n - 1, n - 1);
      assert init[..n - 1] == init;
      LastIsFirstWithKey(xs, key, val);
      FirstByKeyValuesStep(xs, key, val);
    }
  }
}
