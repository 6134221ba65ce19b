/**
 * The byte-bounded LRU cache of geecache/lru/lru.go.
 *
 * A Cache keeps a recency list `ll` of entries (index 0 is the front, the
 * most recently used entry; the last index is the back, the least recently
 * used one) and a map `cache` from each key to its entry in that list. In Go
 * the map holds a list element that in turn holds the entry record; the model
 * merges the two into one Entry object, which the list and the map share, so
 * updating an entry's value through the map changes the list. `nbytes` is the
 * running count of len(key) + value.Len() over the live entries, and
 * `evictions` records every call made to the OnEvicted callback.
 *
 * The ghost field Contents is the list read as values; every method is
 * specified by the functions of LruSpec applied to it. The ghost field Repr
 * is the set of objects the cache owns (itself and every entry it has
 * allocated), the frame its methods may change.
 */
module Lru {
  import opened LruSpec

  /** The `entry` record together with the list element that holds it: what the map points at. */
  class Entry<V> {
    const key: Key
    var value: V

    constructor (key: Key, value: V)
      ensures this.key == key && this.value == value
    {
      this.key := key;
      this.value := value;
    }
  }

  /** Where element e sits in the list (what a container/list handle gives for free). */
  function Position<V>(ll: seq<Entry<V>>, e: Entry<V>): (i: nat)
    requires e in ll
    ensures i < |ll| && ll[i] == e
  {
    if ll[0] == e then 0
    else
      assert e in ll[1..] by { assert ll == [ll[0]] + ll[1..]; }
      1 + Position(ll[1..], e)
  }

  /** container/list's MoveToFront, on the list as a sequence. */
  function MoveToFront<V>(ll: seq<Entry<V>>, e: Entry<V>): (r: seq<Entry<V>>)
    requires e in ll
    ensures |r| == |ll| && r[0] == e
    ensures multiset(r) == multiset(ll)
  {
    var i := Position(ll, e);
    assert ll == ll[..i] + [ll[i]] + ll[i + 1..];
    [e] + ll[..i] + ll[i + 1..]
  }

  // ---------------------------------------------------------------------
  // The invariant of a Cache, stated on its parts

  /** The entries of ll, read in the current heap, are the items of C. */
  ghost predicate Mirrors<V>(ll: seq<Entry<V>>, C: seq<Item<V>>)
    reads ll
  {
    |ll| == |C| && forall i {:trigger ll[i].value} | 0 <= i < |ll| :: C[i] == Item(ll[i].key, ll[i].value)
  }

  /** Every key of the index points at an entry of the list that holds that key. */
  ghost predicate IndexPointsIntoList<V>(cache: map<Key, Entry<V>>, ll: seq<Entry<V>>)
  {
    forall k | k in cache :: cache[k] in ll && cache[k].key == k
  }

  /**
   * The list reads as C, keys are unique, the index holds exactly the keys of
   * the list and points at their entries, and nbytes is the exact byte count.
   */
  ghost predicate Consistent<V>(ll: seq<Entry<V>>, C: seq<Item<V>>, cache: map<Key, Entry<V>>,
                                nbytes: int, valueLen: V -> nat)
    reads ll
  {
    && Mirrors(ll, C)
    && UniqueKeys(C)
    && cache.Keys == Keys(C)
    && IndexPointsIntoList(cache, ll)
    && nbytes == Bytes(C, valueLen)
  }

  lemma MirrorsMoveToFront<V>(ll: seq<Entry<V>>, C: seq<Item<V>>, p: nat)
    requires Mirrors(ll, C) && p < |ll|
    ensures Mirrors([ll[p]] + ll[..p] + ll[p + 1..], [C[p]] + C[..p] + C[p + 1..])
  {
    var ll', C' := [ll[p]] + ll[..p] + ll[p + 1..], [C[p]] + C[..p] + C[p + 1..];
    forall i | 0 <= i < |ll'| ensures C'[i] == Item(ll'[i].key, ll'[i].value) {
      if i == 0 {
      } else if i <= p {
        assert ll'[i] == ll[i - 1] && C'[i] == C[i - 1];
      } else {
        assert ll'[i] == ll[i] && C'[i] == C[i];
      }
    }
  }

  lemma MirrorsCons<V>(e: Entry<V>, ll: seq<Entry<V>>, C: seq<Item<V>>)
    requires Mirrors(ll, C)
    ensures Mirrors([e] + ll, [Item(e.key, e.value)] + C)
  {
    var ll', C' := [e] + ll, [Item(e.key, e.value)] + C;
    forall i | 0 < i < |ll'| ensures C'[i] == Item(ll'[i].key, ll'[i].value) {
      assert ll'[i] == ll[i - 1] && C'[i] == C[i - 1];
    }
  }

  lemma MirrorsPrefix<V>(ll: seq<Entry<V>>, C: seq<Item<V>>, n: nat)
    requires Mirrors(ll, C) && n <= |ll|
    ensures Mirrors(ll[..n], C[..n])
  {
  }

  lemma IndexPointsAfterReorder<V>(cache: map<Key, Entry<V>>, ll: seq<Entry<V>>, ll': seq<Entry<V>>)
    requires IndexPointsIntoList(cache, ll) && multiset(ll) == multiset(ll')
    ensures IndexPointsIntoList(cache, ll')
  {
    forall k | k in cache ensures cache[k] in ll' {
      assert cache[k] in multiset(ll);
    }
  }

  lemma IndexPointsAfterDropLast<V>(cache: map<Key, Entry<V>>, ll: seq<Entry<V>>)
    requires IndexPointsIntoList(cache, ll) && ll != []
    ensures IndexPointsIntoList(cache - {ll[|ll| - 1].key}, ll[..|ll| - 1])
  {
    var n := |ll| - 1;
    forall k | k in cache - {ll[n].key} ensures cache[k] in ll[..n] {
      var i := Position(ll, cache[k]);
      assert i != n;
      assert ll[..n][i] == ll[i];
    }
  }

  lemma IndexPointsAfterPush<V>(cache: map<Key, Entry<V>>, ll: seq<Entry<V>>, e: Entry<V>)
    requires IndexPointsIntoList(cache, ll)
    ensures IndexPointsIntoList(cache[e.key := e], [e] + ll)
  {
    forall k | k in cache && k != e.key ensures cache[k] in [e] + ll {
      var i := Position(ll, cache[k]);
      assert ([e] + ll)[i + 1] == ll[i];
    }
  }

  /** Every entry of the list is one of the objects in R. */
  ghost predicate Owned<V>(ll: seq<Entry<V>>, R: set<object>)
  {
    forall e | e in ll :: e in R
  }

  lemma OwnedPush<V>(e: Entry<V>, ll: seq<Entry<V>>, R: set<object>)
    requires Owned(ll, R)
    ensures Owned([e] + ll, R + {e})
  {
  }

  /** Get's hit path and the first step of Add's update path keep the invariant. */
  lemma ConsistentMoveToFront<V>(ll: seq<Entry<V>>, C: seq<Item<V>>, cache: map<Key, Entry<V>>,
                                 nbytes: int, valueLen: V -> nat, key: Key)
    requires Consistent(ll, C, cache, nbytes, valueLen) && key in cache
    ensures cache[key] in ll && Lookup(C, key) == Some(cache[key].value)
    ensures Consistent(MoveToFront(ll, cache[key]), Promote(C, key), cache, nbytes, valueLen)
  {
    var e := cache[key];
    var p := Position(ll, e);
    assert C[p] == Item(ll[p].key, ll[p].value);
    PromoteAt(C, p, valueLen);
    MirrorsMoveToFront(ll, C, p);
    IndexPointsAfterReorder(cache, ll, MoveToFront(ll, e));
  }

  /** RemoveOldset's step keeps the invariant. */
  lemma ConsistentDropLast<V>(ll: seq<Entry<V>>, C: seq<Item<V>>, cache: map<Key, Entry<V>>,
                              nbytes: int, valueLen: V -> nat)
    requires Consistent(ll, C, cache, nbytes, valueLen) && ll != []
    ensures C[|C| - 1] == Item(ll[|ll| - 1].key, ll[|ll| - 1].value)
    ensures Consistent(ll[..|ll| - 1], C[..|C| - 1], cache - {ll[|ll| - 1].key},
                       nbytes - ItemBytes(C[|C| - 1], valueLen), valueLen)
  {
    var n := |ll| - 1;
    UniqueKeysIff(C);
    UniqueKeysIff(C[..n]);
    KeysDropLast(C);
    PrefixProperties(C, n);
    MirrorsPrefix(ll, C, n);
    IndexPointsAfterDropLast(cache, ll);
  }

  /** Add's insert path keeps the invariant. */
  lemma ConsistentPush<V>(ll: seq<Entry<V>>, C: seq<Item<V>>, cache: map<Key, Entry<V>>,
                          nbytes: int, valueLen: V -> nat, e: Entry<V>)
    requires Consistent(ll, C, cache, nbytes, valueLen) && e.key !in cache
    ensures Put(C, e.key, e.value) == [Item(e.key, e.value)] + C
    ensures Consistent([e] + ll, [Item(e.key, e.value)] + C, cache[e.key := e],
                       nbytes + |e.key| + valueLen(e.value), valueLen)
  {
    UniqueKeysIff(C);
    UniqueKeysIff([Item(e.key, e.value)] + C);
    PutProperties(C, e.key, e.value, valueLen);
    LookupKeys(C, e.key);
    MirrorsCons(e, ll, C);
    IndexPointsAfterPush(cache, ll, e);
  }

  class Cache<V> {
    /** The byte budget; 0 means unbounded. */
    const maxBytes: nat
    /** Value.Len(): the bytes a value reports for itself. */
    const valueLen: V -> nat
    /** Whether OnEvicted is set (non-nil). */
    const hasOnEvicted: bool

    var nbytes: int
    var ll: seq<Entry<V>>
    var cache: map<Key, Entry<V>>
    /** The (key, value) arguments of every OnEvicted call so far, in call order. */
    var evictions: seq<Item<V>>

    ghost var Contents: seq<Item<V>>
    /** The objects this cache owns: itself and every entry it has allocated. */
    ghost var Repr: set<object>

    ghost predicate Valid()
      reads this, Repr
      ensures Valid() ==> this in Repr && |ll| == |Contents| && 0 <= nbytes
    {
      && this in Repr
      && Owned(ll, Repr)
      && Consistent(ll, Contents, cache, nbytes, valueLen)
    }

    /** No entry is the cache object itself, so writing the cache's fields leaves every entry as it was. */
    lemma NotTheCache(L: seq<Entry<V>>)
      ensures forall i | 0 <= i < |L| :: L[i] as object != this
    {
    }

    /** New: an empty cache with the given budget and callback. */
    constructor New(maxBytes: nat, hasOnEvicted: bool, valueLen: V -> nat)
      ensures Valid() && fresh(Repr)
      ensures this.maxBytes == maxBytes && this.hasOnEvicted == hasOnEvicted
      ensures this.valueLen == valueLen
      ensures Contents == [] && nbytes == 0 && evictions == []
    {
      this.maxBytes := maxBytes;
      this.hasOnEvicted := hasOnEvicted;
      this.valueLen := valueLen;
      nbytes := 0;
      ll := [];
      cache := map[];
      evictions := [];
      Contents := [];
      Repr := {this};
    }

    /** Len: the number of entries, in the list and in the index alike. */
    function Len(): (n: nat)
      reads this, Repr
      requires Valid()
      ensures n == |Contents| && n == |cache|
    {
      assert |cache.Keys| == |cache|;
      UniqueKeysIff(Contents);
      KeysCount(Contents);
      |ll|
    }

    /** container/list's MoveToFront on the entry the index holds for key; returns that entry's value. */
    method Touch(key: Key) returns (v: V)
      requires Valid() && key in cache
      modifies this
      ensures Valid() && Repr == old(Repr)
      ensures Lookup(old(Contents), key) == Some(v)
      ensures Contents == Promote(old(Contents), key) && ll != [] && ll[0] == cache[key]
      ensures Contents[0] == Item(key, v) && v == old(cache[key].value)
      ensures nbytes == old(nbytes) && cache == old(cache) && evictions == old(evictions)
    {
      var e := cache[key];
      ConsistentMoveToFront(ll, Contents, cache, nbytes, valueLen, key);
      NotTheCache(MoveToFront(ll, e));
      ll := MoveToFront(ll, e);
      Contents := Promote(Contents, key);
      v := e.value;
    }

    /**
     * Get: a hit returns the stored value and moves its entry to the front;
     * a miss returns None (the nil Value) and changes nothing.
     */
    method Get(key: Key) returns (value: Option<V>, ok: bool)
      requires Valid()
      modifies this
      ensures Valid() && Repr == old(Repr)
      ensures value == Lookup(old(Contents), key) && ok == value.Some?
      ensures Contents == Promote(old(Contents), key)
      ensures nbytes == old(nbytes) && cache == old(cache) && evictions == old(evictions)
      ensures !ok ==> unchanged(this)
    {
      if key in cache {
        var v := Touch(key);
        value, ok := Some(v), true;
      } else {
        LookupKeys(Contents, key);
        value, ok := None, false;
      }
    }

    /**
     * RemoveOldset (the source's spelling): evicts the back entry, if any,
     * from the list and the map, takes its bytes off nbytes and reports it
     * to OnEvicted when that is set. On an empty cache it does nothing.
     */
    method RemoveOldset()
      requires Valid()
      modifies this
      ensures Valid() && Repr == old(Repr)
      ensures old(Contents) == [] ==> unchanged(this)
      ensures old(Contents) != [] ==>
        var last := old(Contents)[|old(Contents)| - 1];
        && Contents == old(Contents)[..|old(Contents)| - 1]
        && cache == old(cache) - {last.key}
        && nbytes == old(nbytes) - ItemBytes(last, valueLen)
        && evictions == old(evictions) + (if hasOnEvicted then [last] else [])
    {
      if ll != [] {
        var n := |ll| - 1;
        var e := ll[n];
        ConsistentDropLast(ll, Contents, cache, nbytes, valueLen);
        NotTheCache(ll[..n]);
        ll := ll[..n];
        cache := cache - {e.key};
        nbytes := nbytes - (|e.key| + valueLen(e.value));
        if hasOnEvicted {
          evictions := evictions + [Item(e.key, e.value)];
        }
        Contents := Contents[..n];
      }
    }

    /**
     * The in-place update of the front entry: nbytes moves by the difference
     * of the two values' sizes, then the entry takes the new value.
     */
    method OverwriteFront(value: V)
      requires Valid() && ll != []
      modifies this, ll[0]
      ensures Valid() && Repr == old(Repr)
      ensures Contents == [Item(old(Contents)[0].key, value)] + old(Contents)[1..]
      ensures nbytes == old(nbytes) + valueLen(value) - valueLen(old(Contents)[0].value)
      ensures cache == old(cache) && evictions == old(evictions)
    {
      var e := ll[0];
      ghost var C := Contents;
      ReplaceFront(C, value, valueLen);
      NotTheCache(ll);
      nbytes := nbytes + valueLen(value) - valueLen(e.value);
      e.value := value;
      Contents := [Item(e.key, value)] + C[1..];
      forall i | 0 < i < |ll| ensures Contents[i] == Item(ll[i].key, ll[i].value) {
        UniqueKeysFront(C, i);
        assert C[i] == Item(ll[i].key, old(ll[i].value));
      }
    }

    /** Add's path for a key already present: move its entry to the front, then overwrite its value in place. */
    method Overwrite(key: Key, value: V)
      requires Valid() && key in cache
      modifies Repr
      ensures Valid() && Repr == old(Repr)
      ensures Contents == Put(old(Contents), key, value)
      ensures nbytes == old(nbytes) + valueLen(value) - valueLen(old(cache[key].value))
      ensures cache == old(cache) && evictions == old(evictions)
    {
      ghost var C := Contents;
      assert Put(C, key, value) == [Item(key, value)] + Promote(C, key)[1..]
          && Promote(C, key)[0].key == key by {
        UniqueKeysIff(C);
        PutIsPromoteThenOverwrite(C, key, value, valueLen);
      }
      assert cache[key] in ll;
      var _ := Touch(key);
      OverwriteFront(value);
    }

    /** Add's path for a new key: push a fresh entry at the front and index it. */
    method Insert(key: Key, value: V)
      requires Valid() && key !in cache
      modifies this
      ensures Valid() && fresh(Repr - old(Repr))
      ensures Contents == Put(old(Contents), key, value)
      ensures nbytes == old(nbytes) + |key| + valueLen(value)
      ensures key in cache && cache == old(cache)[key := cache[key]] && fresh(cache[key])
      ensures Repr == old(Repr) + {cache[key]}
      ensures evictions == old(evictions)
    {
      var e := new Entry(key, value);
      ConsistentPush(ll, Contents, cache, nbytes, valueLen, e);
      NotTheCache([e] + ll);
      OwnedPush(e, ll, Repr);
      ll := [e] + ll;
      cache := cache[key := e];
      nbytes := nbytes + |key| + valueLen(value);
      Contents := [Item(key, value)] + Contents;
      Repr := Repr + {e};
    }

    /** Add's closing loop: evict from the back while the budget is set and exceeded. */
    method EvictWhileOverBudget()
      requires Valid()
      modifies this
      ensures Valid() && Repr == old(Repr)
      ensures Contents == Trim(old(Contents), maxBytes, valueLen)
      ensures evictions == old(evictions) +
        (if hasOnEvicted then Evicted(old(Contents), maxBytes, valueLen) else [])
      ensures maxBytes == 0 || nbytes <= maxBytes
    {
      while OverBudget(maxBytes, nbytes)
        invariant Valid() && Repr == old(Repr)
        invariant Trim(Contents, maxBytes, valueLen) == Trim(old(Contents), maxBytes, valueLen)
        invariant evictions + (if hasOnEvicted then Evicted(Contents, maxBytes, valueLen) else []) ==
          old(evictions) + (if hasOnEvicted then Evicted(old(Contents), maxBytes, valueLen) else [])
        decreases |ll|
      {
        RemoveOldset();
      }
    }

    /**
     * Add: stores value under key at the front (updating an existing entry
     * in place or pushing a new one), then evicts from the back until the
     * budget holds.
     */
    method Add(key: Key, value: V)
      requires Valid()
      modifies Repr
      ensures Valid() && fresh(Repr - old(Repr))
      ensures Contents == Trim(Put(old(Contents), key, value), maxBytes, valueLen)
      ensures evictions == old(evictions) +
        (if hasOnEvicted then Evicted(Put(old(Contents), key, value), maxBytes, valueLen) else [])
      ensures maxBytes == 0 || nbytes <= maxBytes
    {
      if key in cache {
        Overwrite(key, value);
      } else {
        Insert(key, value);
      }
      EvictWhileOverBudget();
    }
  }
}
