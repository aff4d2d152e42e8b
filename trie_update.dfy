/**
 * The order-tracking half of one update of an immutable map
 * (org.basex.query.value.map.TrieUpdate).
 *
 * Every put or remove on a map creates one TrieUpdate. It remembers the
 * predecessor's key-order log (null for empty and singleton maps) and builds
 * the successor's log by copy-on-write, so that the predecessor's log is
 * never changed. The trie nodes themselves are not part of this model: a map
 * is seen here as its key set plus its optional order log.
 */
module TrieUpdates {
  import opened Wrappers

  /** No key occurs twice. */
  predicate NoDups<K(==)>(s: seq<K>) {
    forall i, j :: 0 <= i < j < |s| ==> s[i] != s[j]
  }

  /** `s` with every occurrence of `k` deleted, the other keys in their order. */
  function Without<K(==)>(s: seq<K>, k: K): (r: seq<K>)
    ensures |r| <= |s|
  {
    if s == [] then []
    else if s[0] == k then Without(s[1..], k)
    else [s[0]] + Without(s[1..], k)
  }

  /** A key survives the deletion of `k` exactly when it was there and is not `k`. */
  lemma {:induction false} WithoutMember<K>(s: seq<K>, k: K, x: K)
    ensures x in Without(s, k) <==> x in s && x != k
  {
    if s != [] {
      WithoutMember(s[1..], k, x);
      assert x in s <==> x == s[0] || x in s[1..];
    }
  }

  /** Deleting a key that occurs once, at index `i`, cuts out exactly that position. */
  lemma {:induction false} WithoutAt<K>(s: seq<K>, i: nat)
    requires NoDups(s) && i < |s|
    ensures Without(s, s[i]) == s[..i] + s[i + 1..]
  {
    if i == 0 {
      WithoutAbsent(s[1..], s[0]);
    } else {
      var k, t := s[i], s[1..];
      assert NoDups(t) by {
        forall a, b | 0 <= a < b < |t| ensures t[a] != t[b] {
          assert t[a] == s[a + 1] && t[b] == s[b + 1];
        }
      }
      assert t[i - 1] == k;
      WithoutAt(t, i - 1);
      assert s[0] != k;
      assert Without(s, k) == [s[0]] + Without(t, k);
      assert Without(t, k) == s[1..i] + s[i + 1..] by {
        assert t[..i - 1] == s[1..i];
        assert t[i..] == s[i + 1..];
      }
      assert [s[0]] + s[1..i] == s[..i];
    }
  }

  /** Deleting a key that does not occur changes nothing. */
  lemma {:induction false} WithoutAbsent<K>(s: seq<K>, k: K)
    requires k !in s
    ensures Without(s, k) == s
  {
    if s != [] {
      WithoutAbsent(s[1..], k);
    }
  }

  /** Deleting keeps a duplicate-free log duplicate-free. */
  lemma {:induction false} WithoutNoDups<K>(s: seq<K>, k: K)
    requires NoDups(s)
    ensures NoDups(Without(s, k))
  {
    if s != [] {
      assert NoDups(s[1..]) by {
        forall a, b | 0 <= a < b < |s[1..]| ensures s[1..][a] != s[1..][b] {
          assert s[1..][a] == s[a + 1] && s[1..][b] == s[b + 1];
        }
      }
      WithoutNoDups(s[1..], k);
      if s[0] != k {
        var t := Without(s[1..], k);
        assert s[0] !in t by { WithoutMember(s[1..], k, s[0]); }
        forall a, b | 0 <= a < b < |[s[0]] + t| ensures ([s[0]] + t)[a] != ([s[0]] + t)[b] {
          if a == 0 { assert ([s[0]] + t)[b] == t[b - 1]; }
        }
      }
    }
  }

  /** The keys of an order log, or None where the map keeps no log. */
  type OrderKeys<K> = Option<seq<K>>

  /**
   * The successor's log after adding the new key `key`; `prev` is the key of
   * the predecessor's only entry and is read only when there is no log yet.
   */
  function AddedOrder<K>(oldKeys: OrderKeys<K>, prev: K, key: K): (r: seq<K>)
  {
    match oldKeys
    case None => [prev, key]
    case Some(ks) => ks + [key]
  }

  /** The successor's log after removing `prev`; no log stays no log. */
  function RemovedOrder<K(==)>(oldKeys: OrderKeys<K>, prev: K): (r: OrderKeys<K>)
  {
    match oldKeys
    case None => None
    case Some(ks) => Some(Without(ks, prev))
  }

  /** Every key of `ks` is in `keys` and every key of `keys` is in `ks`. */
  predicate ListsExactly<K(==)>(ks: seq<K>, keys: set<K>) {
    (forall i :: 0 <= i < |ks| ==> ks[i] in keys) && (forall x | x in keys :: x in ks)
  }

  /** A log, where present, lists every key of the map exactly once. */
  predicate Tracks<K(==)>(keys: set<K>, order: OrderKeys<K>) {
    order.Some? ==> NoDups(order.value) && ListsExactly(order.value, keys)
  }

  /**
   * Adding a key that is not yet in the map to a map that either has a log,
   * or holds exactly the one key `prev`, yields a log of the new key set
   * whose length is the new size and whose last key is the new one.
   */
  lemma AddKeepsTracking<K>(keys: set<K>, order: OrderKeys<K>, prev: K, key: K)
    requires Tracks(keys, order)
    requires key !in keys
    requires order.None? ==> keys == {prev}
    ensures Tracks(keys + {key}, Some(AddedOrder(order, prev, key)))
    ensures |AddedOrder(order, prev, key)| == |keys + {key}|
    ensures AddedOrder(order, prev, key)[|AddedOrder(order, prev, key)| - 1] == key
  {
    var r := AddedOrder(order, prev, key);
    match order
    case None =>
      assert r == [prev, key];
      assert keys + {key} == {prev, key};
    case Some(ks) =>
      assert r == ks + [key];
      assert forall i :: 0 <= i < |ks| ==> ks[i] in keys;
      DistinctCard(ks, keys);
  }

  /** A duplicate-free listing of a set has the set's size. */
  lemma {:induction false} DistinctCard<K>(ks: seq<K>, keys: set<K>)
    requires NoDups(ks)
    requires ListsExactly(ks, keys)
    ensures |ks| == |keys|
  {
    if ks != [] {
      var rest := ks[1..];
      assert NoDups(rest) by {
        forall a, b | 0 <= a < b < |rest| ensures rest[a] != rest[b] {
          assert rest[a] == ks[a + 1] && rest[b] == ks[b + 1];
        }
      }
      assert ks[0] !in rest;
      forall x ensures x in rest <==> x in keys - {ks[0]} {
        if x in rest {
          var j :| 0 <= j < |rest| && rest[j] == x;
          assert x == ks[j + 1];
        }
        if x in keys - {ks[0]} {
          var j :| 0 <= j < |ks| && ks[j] == x;
          assert j != 0;
          assert rest[j - 1] == x;
        }
      }
      DistinctCard(rest, keys - {ks[0]});
    }
  }

  /**
   * Removing a key of the map keeps the log a listing of the remaining keys:
   * exactly that key's position is cut out and the rest keep their order.
   */
  lemma RemoveKeepsTracking<K>(keys: set<K>, order: OrderKeys<K>, prev: K)
    requires Tracks(keys, order)
    requires prev in keys
    ensures Tracks(keys - {prev}, RemovedOrder(order, prev))
    ensures order.Some? ==>
      (exists i :: 0 <= i < |order.value| && order.value[i] == prev &&
        RemovedOrder(order, prev).value == order.value[..i] + order.value[i + 1..])
  {
    if order.Some? {
      var ks := order.value;
      WithoutNoDups(ks, prev);
      var i :| 0 <= i < |ks| && ks[i] == prev;
      WithoutAt(ks, i);
    }
  }

  /** Removing a key the map does not hold leaves the log as it was. */
  lemma RemoveAbsentKeepsOrder<K>(keys: set<K>, order: OrderKeys<K>, prev: K)
    requires Tracks(keys, order)
    requires prev !in keys
    ensures RemovedOrder(order, prev) == order
  {
    if order.Some? {
      WithoutAbsent(order.value, prev);
    }
  }

  /** The key-order log; its implementation is not part of this model. */
  class TrieOrder<K(==)> {
    var keys: seq<K>

    constructor ()
      ensures keys == []
    {
      keys := [];
    }

    method Add(k: K)
      modifies this
      ensures keys == old(keys) + [k]
    {
      keys := keys + [k];
    }

    method Remove(k: K)
      modifies this
      ensures keys == Without(old(keys), k)
    {
      keys := Without(keys, k);
    }

    method Copy() returns (c: TrieOrder<K>)
      ensures fresh(c) && c.keys == keys
    {
      c := new TrieOrder();
      c.keys := keys;
    }
  }

  /** The keys of a possibly absent log. */
  ghost function KeysOf<K>(o: TrieOrder?<K>): OrderKeys<K>
    reads o
  {
    if o == null then None else Some(o.keys)
  }

  class TrieUpdate<K(==), V> {
    /** Key of the entry that is put or removed. */
    const key: K
    /** New value; None denotes a deletion. */
    const value: Option<V>
    /** Order of the predecessor map (null for empty and singleton maps). */
    const oldOrder: TrieOrder?<K>
    /** Order of the successor map (initially null). */
    var newOrder: TrieOrder?<K>

    constructor (key: K, value: Option<V>, oldOrder: TrieOrder?<K>)
      ensures this.key == key && this.value == value && this.oldOrder == oldOrder
      ensures newOrder == null
    {
      this.key := key;
      this.value := value;
      this.oldOrder := oldOrder;
      newOrder := null;
    }

    /**
     * Adds the entry for `key`. `prev` is the key of the entry the map held
     * so far; it is read only when the predecessor had no order log.
     * The predecessor's log keeps its keys; the successor's log is fresh.
     */
    method Add(prev: K)
      modifies this
      ensures newOrder != null && fresh(newOrder)
      ensures newOrder.keys == AddedOrder(KeysOf(oldOrder), prev, key)
      ensures oldOrder != null ==> oldOrder.keys == old(oldOrder.keys)
      ensures KeysOf(Order()) == Some(AddedOrder(KeysOf(oldOrder), prev, key))
    {
      var had := PrepareOld();
      if !had {
        newOrder := new TrieOrder();
        newOrder.Add(prev);
      }
      newOrder.Add(key);
    }

    /**
     * Removes the entry for `prev`. Without a predecessor log nothing
     * happens; otherwise a fresh copy of the log loses `prev`.
     */
    method Remove(prev: K)
      modifies this
      ensures oldOrder == null ==> newOrder == old(newOrder)
      ensures oldOrder != null ==>
        (newOrder != null && fresh(newOrder) &&
         KeysOf(newOrder) == RemovedOrder(KeysOf(oldOrder), prev))
      ensures oldOrder != null ==> oldOrder.keys == old(oldOrder.keys)
      ensures oldOrder == null ==> Order() == old(Order())
      ensures oldOrder != null ==> KeysOf(Order()) == RemovedOrder(KeysOf(oldOrder), prev)
    {
      var had := PrepareOld();
      if had {
        newOrder.Remove(prev);
      }
    }

    /** The order of the successor map: the new log once built, else the old one. */
    function Order(): (r: TrieOrder?<K>)
      reads this
      ensures newOrder != null ==> r == newOrder
      ensures newOrder == null ==> r == oldOrder
    {
      if newOrder != null then newOrder else oldOrder
    }

    /**
     * Whether the predecessor had a log; if so, `newOrder` becomes a fresh
     * copy of it, which later changes may touch.
     */
    method PrepareOld() returns (had: bool)
      modifies this
      ensures had <==> oldOrder != null
      ensures had ==> newOrder != null && fresh(newOrder) && newOrder.keys == oldOrder.keys
      ensures !had ==> newOrder == old(newOrder)
    {
      if oldOrder == null {
        return false;
      }
      newOrder := oldOrder.Copy();
      return true;
    }
  }
}
