/** An insertion-ordered map from names to values, with the semantics of Java's
    `LinkedHashMap`: `put` on a new key appends it, `put` on a present key keeps
    its position, `remove` closes the gap. */
module LinkedMaps {
  import opened Common

  predicate NoDuplicates<T(==)>(s: seq<T>)
  {
    forall i, j | 0 <= i < j < |s| :: s[i] != s[j]
  }

  /** Position of `k` in `s`. */
  function IndexOf<T(==)>(s: seq<T>, k: T): (i: nat)
    requires k in s
    ensures i < |s| && s[i] == k
    ensures forall j | 0 <= j < i :: s[j] != k
  {
    if s[0] == k then 0 else 1 + IndexOf(s[1..], k)
  }

  datatype LinkedMap<V> = LinkedMap(keys: seq<string>, entries: map<string, V>)
  {
    /** The key order lists every key exactly once. */
    ghost predicate Valid()
    {
      NoDuplicates(keys) && (forall k :: k in entries <==> k in keys)
    }

    /** `get`: the value under `k`, or nothing (`null`). */
    function Get(k: string): (r: Option<V>)
      ensures r.Some? <==> k in entries
      ensures r.Some? ==> r.value == entries[k]
    {
      if k in entries then Some(entries[k]) else None
    }

    /** `put`: a new key goes to the end; a present key keeps its place and gets `v`. */
    function Put(k: string, v: V): (r: LinkedMap<V>)
      requires Valid()
      ensures r.Valid()
      ensures r.entries == entries[k := v]
      ensures k in entries ==> r.keys == keys
      ensures k !in entries ==> r.keys == keys + [k]
    {
      if k in entries then LinkedMap(keys, entries[k := v]) else LinkedMap(keys + [k], entries[k := v])
    }

    /** `remove`: drops `k` and its value; the other keys keep their order. */
    function Remove(k: string): (r: LinkedMap<V>)
      requires Valid()
      ensures r.Valid()
      ensures r.entries == entries - {k}
      ensures k !in entries ==> r == this
      ensures k in entries ==> exists i | 0 <= i < |keys| && keys[i] == k :: r.keys == keys[..i] + keys[i + 1..]
    {
      if k !in entries then this
      else
        var i := IndexOf(keys, k);
        var rest := keys[..i] + keys[i + 1..];
        DropAt(keys, i);
        assert keys[i] == k;
        var r := LinkedMap(rest, entries - {k});
        assert r.Valid();
        r
    }
  }

  /** Dropping the entry at `i` of a duplicate-free sequence leaves a duplicate-free
      sequence holding exactly the other elements. */
  lemma DropAt<T>(s: seq<T>, i: nat)
    requires NoDuplicates(s) && i < |s|
    ensures NoDuplicates(s[..i] + s[i + 1..])
    ensures forall x :: x in s[..i] + s[i + 1..] <==> x in s && x != s[i]
  {
    var rest := s[..i] + s[i + 1..];
    forall x | x in s && x != s[i] ensures x in rest {
      var j :| 0 <= j < |s| && s[j] == x;
      if j < i { assert rest[j] == x; } else { assert rest[j - 1] == x; }
    }
    forall a, b | 0 <= a < b < |rest| ensures rest[a] != rest[b] {
      var a' := if a < i then a else a + 1;
      var b' := if b < i then b else b + 1;
      assert rest[a] == s[a'] && rest[b] == s[b'];
    }
  }

  /** The empty map. */
  function Empty<V>(): (m: LinkedMap<V>)
    ensures m.Valid() && m.entries == map[]
  {
    LinkedMap([], map[])
  }

  /** Removing a present key shortens the order by exactly one. */
  lemma RemoveShortens<V>(m: LinkedMap<V>, k: string)
    requires m.Valid() && k in m.entries
    ensures |m.Remove(k).keys| == |m.keys| - 1
  {
    var i :| 0 <= i < |m.keys| && m.keys[i] == k && m.Remove(k).keys == m.keys[..i] + m.keys[i + 1..];
  }

  /** Putting under a key already present and then removing it is the same as removing it. */
  lemma PutThenRemove<V>(m: LinkedMap<V>, k: string, v: V)
    requires m.Valid() && k in m.entries
    ensures m.Put(k, v).Remove(k) == m.Remove(k)
  {
    var put := m.Put(k, v);
    assert put.keys == m.keys;
    assert put.entries - {k} == m.entries - {k};
  }

  /** Removing a key and putting it back moves it to the end of the order. */
  lemma RemoveThenPut<V>(m: LinkedMap<V>, k: string, v: V)
    requires m.Valid() && k in m.entries
    ensures m.Remove(k).Put(k, v).keys[|m.keys| - 1] == k
    ensures |m.Remove(k).Put(k, v).keys| == |m.keys|
  {
    RemoveShortens(m, k);
    assert k !in m.Remove(k).entries;
  }

  /** In a valid map the order lists as many keys as the map holds. */
  lemma {:induction false} KeysCount<V>(m: LinkedMap<V>)
    requires m.Valid()
    ensures |m.keys| == |m.entries|
    decreases |m.keys|
  {
    if m.keys != [] {
      var rest := DropLast(m);
      KeysCount(rest);
      var k := m.keys[|m.keys| - 1];
      assert m.entries == rest.entries[k := m.entries[k]];
    }
  }

  /** The map without its most recently inserted key is valid and lacks that key. */
  lemma DropLast<V>(m: LinkedMap<V>) returns (rest: LinkedMap<V>)
    requires m.Valid() && m.keys != []
    ensures rest.Valid() && rest.keys == m.keys[..|m.keys| - 1]
    ensures rest.entries == m.entries - {m.keys[|m.keys| - 1]}
    ensures m.keys[|m.keys| - 1] in m.entries && m.keys[|m.keys| - 1] !in rest.entries
  {
    var k := m.keys[|m.keys| - 1];
    rest := LinkedMap(m.keys[..|m.keys| - 1], m.entries - {k});
    forall x ensures x in rest.entries <==> x in rest.keys {
      if x in m.keys && x != k {
        var j :| 0 <= j < |m.keys| && m.keys[j] == x;
        assert rest.keys[j] == x;
      }
    }
  }
}
