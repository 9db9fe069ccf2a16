/**
 * The list behind the transaction pool (OpenWebby.Data/Common/TransactionPool.cs):
 * a `List<KeyValuePair<string, Transaction>>` searched with `List.Find` and shrunk
 * with `List.Remove`. These functions are generic in the value type; the pool class
 * in module Transactions instantiates them with its transactions.
 */
module PoolList {
  import opened Wrappers

  /** A `KeyValuePair<string, V>`; its equality compares the key and the value, as C#'s does. */
  datatype Entry<V> = Entry(key: string, value: V)

  predicate HasKey<V>(s: seq<Entry<V>>, key: string)
  {
    exists i | 0 <= i < |s| :: s[i].key == key
  }

  /** No key occurs twice: what sequential use of the pool maintains. */
  predicate DistinctKeys<V>(s: seq<Entry<V>>)
  {
    forall i, j | 0 <= i < j < |s| :: s[i].key != s[j].key
  }

  /** Position of the first entry whose key is `key`, or |s| when there is none. */
  function FirstIndex<V>(s: seq<Entry<V>>, key: string): (i: nat)
    ensures i <= |s|
    ensures forall j | 0 <= j < i :: s[j].key != key
    ensures i < |s| ==> s[i].key == key
    ensures i == |s| <==> !HasKey(s, key)
  {
    if s == [] then 0
    else if s[0].key == key then 0
    else 1 + FirstIndex(s[1..], key)
  }

  /**
   * `Instances.Find(x => x.Key == key)`: the first entry with that key; None stands for
   * the default pair that List.Find returns when nothing matches (its Value is null).
   */
  function Find<V>(s: seq<Entry<V>>, key: string): (r: Option<Entry<V>>)
    ensures r.None? <==> !HasKey(s, key)
    ensures r.Some? ==> r.value in s && r.value.key == key
    ensures r.Some? ==> exists i | 0 <= i < |s| :: s[i] == r.value && forall j | 0 <= j < i :: s[j].key != key
  {
    var i := FirstIndex(s, key);
    if i < |s| then Some(s[i]) else None
  }

  /** `List.IndexOf(item)`: position of the first element equal to `x`, or |s| when there is none. */
  function IndexOf<T(==)>(s: seq<T>, x: T): (i: nat)
    ensures i <= |s|
    ensures forall j | 0 <= j < i :: s[j] != x
    ensures i < |s| ==> s[i] == x
    ensures i == |s| <==> x !in s
  {
    if s == [] then 0
    else if s[0] == x then 0
    else 1 + IndexOf(s[1..], x)
  }

  /** `List.Remove(item)`: deletes the first element equal to `item`, if any. */
  function RemoveFirstOccurrence<T(==)>(s: seq<T>, x: T): (r: seq<T>)
    ensures x !in s ==> r == s
    ensures x in s ==> r == s[..IndexOf(s, x)] + s[IndexOf(s, x) + 1..]
  {
    var i := IndexOf(s, x);
    if i < |s| then s[..i] + s[i + 1..] else s
  }

  /**
   * `TransactionPool.Remove(key)`, i.e. `Instances.Remove(GetObject(key))`: the pair
   * found by the lookup is removed by equality. When the lookup finds nothing, the
   * default pair is equal to no entry and the list is unchanged.
   */
  function RemoveKey<V(==)>(s: seq<Entry<V>>, key: string): (r: seq<Entry<V>>)
    ensures !HasKey(s, key) ==> r == s
    ensures HasKey(s, key) ==> var i := FirstIndex(s, key); r == s[..i] + s[i + 1..]
  {
    match Find(s, key)
    case None => s
    case Some(e) =>
      var i := FirstIndex(s, key);
      assert s[i] == e;
      var k := IndexOf(s, e);
      assert k <= i;
      assert s[k].key == key;
      assert k == i;
      RemoveFirstOccurrence(s, e)
  }

  /** Deleting position `i` shifts every later element down by one. */
  lemma DeleteAt<T>(s: seq<T>, i: nat, r: seq<T>)
    requires i < |s| && r == s[..i] + s[i + 1..]
    ensures |r| == |s| - 1
    ensures forall a | 0 <= a < |r| :: r[a] == s[if a < i then a else a + 1]
  {
  }

  /** The first index of a key is the position of an entry with it that no earlier entry shares. */
  lemma FirstIndexAt<V>(s: seq<Entry<V>>, key: string, p: nat)
    requires p < |s| && s[p].key == key
    requires forall a | 0 <= a < p :: s[a].key != key
    ensures FirstIndex(s, key) == p
  {
    assert HasKey(s, key);
  }

  /** After removing a key from a list with distinct keys, the key is gone and the keys stay distinct. */
  lemma {:induction false} RemoveKeyKeepsDistinct<V>(s: seq<Entry<V>>, key: string)
    requires DistinctKeys(s)
    ensures DistinctKeys(RemoveKey(s, key))
    ensures !HasKey(RemoveKey(s, key), key)
    ensures Find(RemoveKey(s, key), key) == None
  {
    var r := RemoveKey(s, key);
    if HasKey(s, key) {
      var i := FirstIndex(s, key);
      DeleteAt(s, i, r);
      forall a, b | 0 <= a < b < |r| ensures r[a].key != r[b].key {
        assert r[a] == s[if a < i then a else a + 1];
        assert r[b] == s[if b < i then b else b + 1];
      }
      forall a | 0 <= a < |r| ensures r[a].key != key {
        assert r[a] == s[if a < i then a else a + 1];
      }
    }
  }

  /** Removal only drops entries: everything left was there before. */
  lemma RemoveKeyOnlyDrops<V>(s: seq<Entry<V>>, key: string)
    ensures forall x | x in RemoveKey(s, key) :: x in s
  {
    if HasKey(s, key) {
      var i := FirstIndex(s, key);
      var r := RemoveKey(s, key);
      DeleteAt(s, i, r);
      forall x | x in r ensures x in s {
        var a :| 0 <= a < |r| && r[a] == x;
        assert r[a] == s[if a < i then a else a + 1];
      }
    }
  }

  /** Removing twice is removing once, when keys are distinct. */
  lemma RemoveKeyTwice<V>(s: seq<Entry<V>>, key: string)
    requires DistinctKeys(s)
    ensures RemoveKey(RemoveKey(s, key), key) == RemoveKey(s, key)
  {
    RemoveKeyKeepsDistinct(s, key);
  }

  /** Removing one key does not change what a lookup of any other key finds. */
  lemma {:induction false} RemoveKeyKeepsOtherLookups<V>(s: seq<Entry<V>>, key: string, other: string)
    requires other != key
    ensures Find(RemoveKey(s, key), other) == Find(s, other)
  {
    if HasKey(s, key) {
      var i := FirstIndex(s, key);
      var r := RemoveKey(s, key);
      DeleteAt(s, i, r);
      if FirstIndex(s, other) < |s| {
        DeletionKeepsFoundKey(s, i, r, other);
      } else {
        DeletionKeepsMissingKey(s, i, r, other);
      }
    }
  }

  /** Deleting an entry under another key keeps the first entry under `other` first. */
  lemma DeletionKeepsFoundKey<V>(s: seq<Entry<V>>, i: nat, r: seq<Entry<V>>, other: string)
    requires i < |s| && s[i].key != other && r == s[..i] + s[i + 1..]
    requires FirstIndex(s, other) < |s|
    ensures Find(r, other) == Find(s, other)
  {
    DeleteAt(s, i, r);
    var fo := FirstIndex(s, other);
    var p := if fo < i then fo else fo - 1;
    assert r[p] == s[fo];
    forall a | 0 <= a < p ensures r[a].key != other {
      assert r[a] == s[if a < i then a else a + 1];
    }
    FirstIndexAt(r, other, p);
  }

  /** Deleting an entry from a list without `other` leaves it without `other`. */
  lemma DeletionKeepsMissingKey<V>(s: seq<Entry<V>>, i: nat, r: seq<Entry<V>>, other: string)
    requires i < |s| && r == s[..i] + s[i + 1..]
    requires FirstIndex(s, other) == |s|
    ensures Find(r, other) == Find(s, other)
  {
    DeleteAt(s, i, r);
    forall a | 0 <= a < |r| ensures r[a].key != other {
      assert r[a] == s[if a < i then a else a + 1];
    }
  }

  /** Appending an entry under a key not yet present: the lookup then finds that entry,
      keys stay distinct, and removing the key restores the list. */
  lemma {:induction false} AppendUnseen<V>(s: seq<Entry<V>>, e: Entry<V>)
    requires !HasKey(s, e.key)
    ensures Find(s + [e], e.key) == Some(e)
    ensures FirstIndex(s + [e], e.key) == |s|
    ensures RemoveKey(s + [e], e.key) == s
    ensures DistinctKeys(s) ==> DistinctKeys(s + [e])
  {
    var t := s + [e];
    assert t[|s|] == e;
    assert forall j | 0 <= j < |s| :: t[j] == s[j];
    assert HasKey(t, e.key);
    var i := FirstIndex(t, e.key);
    assert i == |s|;
    assert t[..|s|] == s;
  }
}
