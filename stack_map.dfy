/**
 * `StackMap<K, V, N>` of `src/prelude/data/stack_map.rs`: two fixed arrays of
 * `N` keys and `N` values, both indexed by the key's ordinal `usize::from(k)`
 * (the `ordinal` function here).
 */
module StackMaps {

  class StackMap<K, V> {
    const size: nat
    const ordinal: K -> nat
    const keys: array<K>
    const data: array<V>

    ghost predicate Valid()
      reads this
    {
      keys.Length == size && data.Length == size && (keys as object) != (data as object)
    }

    /** `iter`: the `N` (key, value) pairs in index order. */
    function Entries(): (r: seq<(K, V)>)
      reads this, keys, data
      requires Valid()
      ensures |r| == size
    {
      seq(size, i requires 0 <= i < size reads keys, data => (keys[i], data[i]))
    }

    /** `new()`: every key and value slot holds the default. */
    constructor New(n: nat, ordinal: K -> nat, defaultKey: K, defaultValue: V)
      ensures Valid() && fresh(keys) && fresh(data)
      ensures size == n && this.ordinal == ordinal
      ensures keys[..] == seq(n, _ => defaultKey) && data[..] == seq(n, _ => defaultValue)
      ensures forall i :: 0 <= i < n ==> Entries()[i] == (defaultKey, defaultValue)
    {
      size := n;
      this.ordinal := ordinal;
      keys := new K[n](_ => defaultKey);
      data := new V[n](_ => defaultValue);
    }

    /** `get`: the value stored at the key's ordinal; there is no "absent" answer. */
    function Get(k: K): (r: V)
      reads this, keys, data
      requires Valid() && ordinal(k) < size
      ensures r == Entries()[ordinal(k)].1
    {
      data[ordinal(k)]
    }

    /**
     * `insert`: overwrites the key and value slots at the key's ordinal; the
     * array write panics when the ordinal is out of range.
     */
    method Insert(k: K, v: V)
      requires Valid() && ordinal(k) < size
      modifies keys, data
      ensures Valid()
      ensures keys[..] == old(keys[..])[ordinal(k) := k] && data[..] == old(data[..])[ordinal(k) := v]
      ensures Get(k) == v && Entries()[ordinal(k)] == (k, v)
      ensures forall i :: 0 <= i < size && i != ordinal(k) ==> Entries()[i] == old(Entries())[i]
    {
      keys[ordinal(k)] := k;
      data[ordinal(k)] := v;
    }
  }

  /** The values after inserting `entries` in order into `base`, position by ordinal. */
  function Inserted<K, V>(base: seq<V>, ordinal: K -> nat, entries: seq<(K, V)>): (r: seq<V>)
    requires forall e :: e in entries ==> ordinal(e.0) < |base|
    ensures |r| == |base|
    decreases |entries|
  {
    if entries == [] then base
    else Inserted(base[ordinal(entries[0].0) := entries[0].1], ordinal, entries[1..])
  }

  /** The keys after inserting `entries` in order into `base`: each entry writes its key at its own ordinal. */
  function InsertedKeys<K, V>(base: seq<K>, ordinal: K -> nat, entries: seq<(K, V)>): (r: seq<K>)
    requires forall e :: e in entries ==> ordinal(e.0) < |base|
    ensures |r| == |base|
    decreases |entries|
  {
    if entries == [] then base
    else InsertedKeys(base[ordinal(entries[0].0) := entries[0].0], ordinal, entries[1..])
  }

  /** Every key slot keeps its base key or holds a key whose ordinal is that slot, so `get` finds it there. */
  lemma {:induction false} InsertedKeysOrdinal<K, V>(base: seq<K>, ordinal: K -> nat, entries: seq<(K, V)>, p: nat)
    requires forall e :: e in entries ==> ordinal(e.0) < |base|
    requires p < |base|
    ensures var r := InsertedKeys(base, ordinal, entries); r[p] == base[p] || ordinal(r[p]) == p
    decreases |entries|
  {
    if entries != [] {
      var b := base[ordinal(entries[0].0) := entries[0].0];
      assert forall e :: e in entries[1..] ==> e in entries;
      InsertedKeysOrdinal(b, ordinal, entries[1..], p);
    }
  }

  /** The last entry for a position decides its value: a repeated key keeps its last value. */
  lemma {:induction false} InsertedLast<K, V>(base: seq<V>, ordinal: K -> nat, entries: seq<(K, V)>, j: nat)
    requires forall e :: e in entries ==> ordinal(e.0) < |base|
    requires j < |entries|
    requires forall i :: j < i < |entries| ==> ordinal(entries[i].0) != ordinal(entries[j].0)
    ensures Inserted(base, ordinal, entries)[ordinal(entries[j].0)] == entries[j].1
    decreases |entries|
  {
    var b := base[ordinal(entries[0].0) := entries[0].1];
    if j == 0 {
      InsertedUntouched(b, ordinal, entries[1..], ordinal(entries[0].0));
    } else {
      InsertedLast(b, ordinal, entries[1..], j - 1);
    }
  }

  /** A position no entry maps to keeps its base value. */
  lemma {:induction false} InsertedUntouched<K, V>(base: seq<V>, ordinal: K -> nat, entries: seq<(K, V)>, p: nat)
    requires forall e :: e in entries ==> ordinal(e.0) < |base|
    requires p < |base|
    requires forall i :: 0 <= i < |entries| ==> ordinal(entries[i].0) != p
    ensures Inserted(base, ordinal, entries)[p] == base[p]
    decreases |entries|
  {
    if entries != [] {
      var b := base[ordinal(entries[0].0) := entries[0].1];
      forall i | 0 <= i < |entries[1..]| ensures ordinal(entries[1..][i].0) != p {
        assert entries[1..][i] == entries[i + 1];
      }
      InsertedUntouched(b, ordinal, entries[1..], p);
    }
  }

  /**
   * `stack_map!`: a map sized to the number of entries, filled with the
   * defaults, then each entry inserted in order.
   */
  method FromEntries<K, V>(ordinal: K -> nat, defaultKey: K, defaultValue: V, entries: seq<(K, V)>)
    returns (m: StackMap<K, V>)
    requires forall e :: e in entries ==> ordinal(e.0) < |entries|
    ensures fresh(m) && fresh(m.keys) && fresh(m.data) && m.Valid()
    ensures m.size == |entries| && m.ordinal == ordinal
    ensures m.keys[..] == InsertedKeys(seq(|entries|, _ => defaultKey), ordinal, entries)
    ensures m.data[..] == Inserted(seq(|entries|, _ => defaultValue), ordinal, entries)
  {
    m := new StackMap.New(|entries|, ordinal, defaultKey, defaultValue);
    ghost var baseKeys, base := m.keys[..], m.data[..];
    var i := 0;
    while i < |entries|
      invariant i <= |entries|
      invariant m.Valid() && m.size == |entries| && m.ordinal == ordinal
      invariant InsertedKeys(baseKeys, ordinal, entries) == InsertedKeys(m.keys[..], ordinal, entries[i..])
      invariant Inserted(base, ordinal, entries) == Inserted(m.data[..], ordinal, entries[i..])
      modifies m.keys, m.data
    {
      assert entries[i] in entries;
      assert entries[i..][1..] == entries[i + 1..];
      ghost var beforeKeys, before := m.keys[..], m.data[..];
      m.Insert(entries[i].0, entries[i].1);
      assert m.keys[..] == beforeKeys[ordinal(entries[i].0) := entries[i].0];
      assert m.data[..] == before[ordinal(entries[i].0) := entries[i].1];
      i := i + 1;
    }
  }
}
