/**
 * JavaScript's `Map` with string keys: a dictionary that remembers the order in which keys
 * were first inserted. Iteration (`keys()`, `values()`, `entries()`) follows
 * that order; `set` on a key already present replaces the value and keeps
 * the key's position; `delete` removes the key from the order.
 */
module JsMap {
  import opened Wrappers

  /** Every key at most once in `keys`. */
  predicate Distinct(s: seq<string>) {
    forall i, j :: 0 <= i < j < |s| ==> s[i] != s[j]
  }

  /** `s` with every occurrence of `k` removed. */
  function Without(s: seq<string>, k: string): (r: seq<string>)
    ensures |r| <= |s|
  {
    if s == [] then [] else (if s[0] == k then [] else [s[0]]) + Without(s[1..], k)
  }

  /** Removing `k` keeps every other element and drops `k`. */
  lemma {:induction false} WithoutMembers(s: seq<string>, k: string)
    ensures forall x :: x in Without(s, k) <==> x in s && x != k
  {
    if s != [] {
      WithoutMembers(s[1..], k);
      assert s == [s[0]] + s[1..];
    }
  }

  /** Removing a key from a list without repetitions leaves it without repetitions. */
  lemma {:induction false} WithoutDistinct(s: seq<string>, k: string)
    requires Distinct(s)
    ensures Distinct(Without(s, k))
  {
    if s != [] {
      var tail := s[1..];
      assert Distinct(tail) by {
        forall i, j | 0 <= i < j < |tail| ensures tail[i] != tail[j] {
          assert tail[i] == s[i + 1] && tail[j] == s[j + 1];
        }
      }
      WithoutDistinct(tail, k);
      WithoutMembers(tail, k);
      var rest := Without(tail, k);
      forall j | 0 <= j < |tail| ensures tail[j] != s[0] {
        assert tail[j] == s[j + 1];
      }
      assert s[0] !in rest;
      var r := Without(s, k);
      if s[0] != k {
        forall i, j | 0 <= i < j < |r| ensures r[i] != r[j] {
          assert r[j] == rest[j - 1];
          if i > 0 {
            assert r[i] == rest[i - 1];
          }
        }
      }
    }
  }

  /** Removing a key that is not there changes nothing. */
  lemma {:induction false} WithoutAbsent(s: seq<string>, k: string)
    requires k !in s
    ensures Without(s, k) == s
  {
    if s != [] {
      WithoutAbsent(s[1..], k);
      assert s == [s[0]] + s[1..];
    }
  }

  /** Removing a key that occurs once, between two parts that do not hold it. */
  lemma {:induction false} WithoutSplit(a: seq<string>, k: string, b: seq<string>)
    requires k !in a && k !in b
    ensures Without(a + [k] + b, k) == a + b
  {
    var s := a + [k] + b;
    if a == [] {
      assert s[0] == k && s[1..] == b;
      WithoutAbsent(b, k);
    } else {
      assert s[0] == a[0] && s[1..] == a[1..] + [k] + b;
      WithoutSplit(a[1..], k, b);
      assert a == [a[0]] + a[1..];
    }
  }

  datatype JsMap<V> = JsMap(keys: seq<string>, entries: map<string, V>) {

    /** The order holds exactly the keys of the dictionary, each once. */
    ghost predicate Valid() {
      Distinct(keys) && (forall k :: k in entries <==> k in keys)
    }

    /** `map.get(k)`: the value, or `undefined`. */
    function Get(k: string): (r: Option<V>)
      ensures r.Some? <==> k in entries
      ensures r.Some? ==> r.value == entries[k]
    {
      if k in entries then Some(entries[k]) else None
    }

    /** `map.set(k, v)`. */
    function Set(k: string, v: V): (r: JsMap<V>)
      requires Valid()
      ensures r.Valid()
      ensures r.entries == entries[k := v]
      ensures k in entries ==> r.keys == keys
      ensures k !in entries ==> r.keys == keys + [k]
    {
      JsMap(if k in entries then keys else keys + [k], entries[k := v])
    }

    /** `map.delete(k)`. */
    function Delete(k: string): (r: JsMap<V>)
      requires Valid()
      ensures r.Valid()
      ensures r.entries == entries - {k}
      ensures r.keys == Without(keys, k)
    {
      WithoutMembers(keys, k);
      WithoutDistinct(keys, k);
      JsMap(Without(keys, k), entries - {k})
    }

    /** `map.size`. */
    function Size(): (n: nat)
      requires Valid()
      ensures n == 0 <==> entries == map[]
    {
      if keys == [] then 0
      else
        assert keys[0] in entries;
        |keys|
    }

    /** `Array.from(map.values())`: the values in key order. */
    function Values(): (r: seq<V>)
      requires Valid()
      ensures |r| == |keys|
      ensures forall i :: 0 <= i < |keys| ==> r[i] == entries[keys[i]]
    {
      seq(|keys|, i requires 0 <= i < |keys| => entries[keys[i]])
    }
  }

  /** `new Map()`. */
  function Empty<V>(): (m: JsMap<V>)
    ensures m.Valid() && m.keys == [] && m.entries == map[]
  {
    JsMap([], map[])
  }

  /** The listed values are exactly the values stored under some key. */
  lemma ValuesMembers<V>(m: JsMap<V>)
    requires m.Valid()
    ensures forall x :: x in m.Values() <==> exists k :: k in m.entries && m.entries[k] == x
  {
    var values := m.Values();
    forall x | x in values ensures exists k :: k in m.entries && m.entries[k] == x {
      var i :| 0 <= i < |values| && values[i] == x;
      assert m.keys[i] in m.entries;
    }
    forall x | (exists k :: k in m.entries && m.entries[k] == x) ensures x in values {
      var k :| k in m.entries && m.entries[k] == x;
      var i :| 0 <= i < |m.keys| && m.keys[i] == k;
      assert values[i] == x;
    }
  }

  /** Reading back what was just set; other keys are unaffected. */
  lemma GetAfterSet<V>(m: JsMap<V>, k: string, v: V, other: string)
    requires m.Valid()
    ensures m.Set(k, v).Get(k) == Some(v)
    ensures other != k ==> m.Set(k, v).Get(other) == m.Get(other)
  {
  }
}
