/**
 * A client of the cache: the eviction scenario of a 10-byte cache whose
 * values all report 3 bytes, driven through Cache.Add and Cache.Get.
 */
module LruScenarios {
  import opened LruSpec
  import opened Lru

  /** Every value reports a size of 3 bytes. */
  function ThreeBytes(v: int): nat { 3 }

  const A: Key := [97]
  const B: Key := [98]
  const C: Key := [99]
  const D: Key := [100]

  /** Put of a key the list does not hold pushes it at the front. */
  lemma PutAbsent(s: seq<Item<int>>, k: Key, v: int)
    requires Lookup(s, k) == None
    ensures Put(s, k, v) == [Item(k, v)] + s
  {
    LookupKeys(s, k);
  }

  /** Add "a" to the empty cache: 4 bytes, nothing evicted. */
  lemma AddA()
    ensures Trim(Put([], A, 1), 10, ThreeBytes) == [Item(A, 1)]
    ensures Evicted(Put([], A, 1), 10, ThreeBytes) == []
  {
    PutAbsent([], A, 1);
    assert Bytes([Item(A, 1)], ThreeBytes) == 4;
  }

  /** Add "b": 8 bytes, both fit. */
  lemma AddB(s: seq<Item<int>>)
    requires s == [Item(A, 1)]
    ensures Trim(Put(s, B, 2), 10, ThreeBytes) == [Item(B, 2), Item(A, 1)]
    ensures Evicted(Put(s, B, 2), 10, ThreeBytes) == []
  {
    assert Lookup(s, B) == Lookup(s[1..], B) == None;
    PutAbsent(s, B, 2);
    var r := [Item(B, 2), Item(A, 1)];
    assert Bytes(r[..1], ThreeBytes) == 4;
    assert Bytes(r, ThreeBytes) == 8;
  }

  /** Add "c": 12 bytes would exceed 10, so "a", the least recently used, is evicted. */
  lemma AddC(s: seq<Item<int>>)
    requires s == [Item(B, 2), Item(A, 1)]
    ensures Trim(Put(s, C, 3), 10, ThreeBytes) == [Item(C, 3), Item(B, 2)]
    ensures Evicted(Put(s, C, 3), 10, ThreeBytes) == [Item(A, 1)]
  {
    assert Lookup(s, C) == Lookup(s[1..], C) == Lookup(s[2..], C) == None;
    PutAbsent(s, C, 3);
    var r := [Item(C, 3), Item(B, 2), Item(A, 1)];
    assert Bytes(r[..1], ThreeBytes) == 4;
    assert r[..2][..1] == r[..1];
    assert Bytes(r[..2], ThreeBytes) == 8;
    assert Bytes(r, ThreeBytes) == 12;
    assert Put(s, C, 3) == r && r[..2] == [Item(C, 3), Item(B, 2)];
    assert Trim(r, 10, ThreeBytes) == Trim(r[..2], 10, ThreeBytes) == r[..2];
    assert Evicted(r[..2], 10, ThreeBytes) == [];
    assert Evicted(r, 10, ThreeBytes) == [Item(A, 1)] + Evicted(r[..2], 10, ThreeBytes);
  }

  /** Get "b" moves it in front of "c". */
  lemma GetB(s: seq<Item<int>>)
    requires s == [Item(C, 3), Item(B, 2)]
    ensures Lookup(s, B) == Some(2)
    ensures Promote(s, B) == [Item(B, 2), Item(C, 3)]
  {
    assert Lookup(s, B) == Lookup(s[1..], B);
    IndexOfUnique(s, 1);
  }

  /** Add "d": now "c" is the least recently used, so it is evicted and "b" stays. */
  lemma AddD(s: seq<Item<int>>)
    requires s == [Item(B, 2), Item(C, 3)]
    ensures Trim(Put(s, D, 4), 10, ThreeBytes) == [Item(D, 4), Item(B, 2)]
    ensures Evicted(Put(s, D, 4), 10, ThreeBytes) == [Item(C, 3)]
  {
    assert Lookup(s, D) == Lookup(s[1..], D) == Lookup(s[2..], D) == None;
    PutAbsent(s, D, 4);
    var r := [Item(D, 4), Item(B, 2), Item(C, 3)];
    assert Bytes(r[..1], ThreeBytes) == 4;
    assert r[..2][..1] == r[..1];
    assert Bytes(r[..2], ThreeBytes) == 8;
    assert Bytes(r, ThreeBytes) == 12;
    assert Put(s, D, 4) == r && r[..2] == [Item(D, 4), Item(B, 2)];
    assert Trim(r, 10, ThreeBytes) == Trim(r[..2], 10, ThreeBytes) == r[..2];
    assert Evicted(r[..2], 10, ThreeBytes) == [];
    assert Evicted(r, 10, ThreeBytes) == [Item(C, 3)] + Evicted(r[..2], 10, ThreeBytes);
  }

  /** Then "b" is a hit and "c" a miss. */
  lemma LookupAfterD(s: seq<Item<int>>)
    requires s == [Item(D, 4), Item(B, 2)]
    ensures Lookup(s, B) == Some(2)
    ensures Lookup(Promote(s, B), C) == None
  {
    assert Lookup(s, B) == Lookup(s[1..], B);
    IndexOfUnique(s, 1);
    var p := [Item(B, 2), Item(D, 4)];
    assert Promote(s, B) == p;
    assert Lookup(p, C) == Lookup(p[1..], C) == Lookup(p[2..], C) == None;
  }

  /** The scenario's settings: a 10-byte budget, 3-byte values and an OnEvicted callback. */
  ghost predicate Scenario(cache: Cache<int>)
  {
    cache.maxBytes == 10 && cache.valueLen == ThreeBytes && cache.hasOnEvicted
  }

  /** Add a and b to a new 10-byte cache: 8 bytes, both fit. */
  method AddTwo() returns (cache: Cache<int>)
    ensures cache.Valid() && fresh(cache.Repr) && Scenario(cache)
    ensures cache.Contents == [Item(B, 2), Item(A, 1)] && cache.evictions == []
  {
    cache := new Cache<int>.New(10, true, ThreeBytes);
    cache.Add(A, 1);
    AddA();
    ghost var s1 := cache.Contents;
    cache.Add(B, 2);
    AddB(s1);
  }

  /** Then Add c: "a", the least recently used, is evicted to make room. */
  method AddThird(cache: Cache<int>)
    requires cache.Valid() && Scenario(cache)
    requires cache.Contents == [Item(B, 2), Item(A, 1)] && cache.evictions == []
    modifies cache.Repr
    ensures cache.Valid() && fresh(cache.Repr - old(cache.Repr))
    ensures cache.Contents == [Item(C, 3), Item(B, 2)] && cache.evictions == [Item(A, 1)]
  {
    ghost var s2 := cache.Contents;
    cache.Add(C, 3);
    AddC(s2);
  }

  /** Get b, then Add d: "c" is now the least recently used and is the one evicted. */
  method GetThenAdd(cache: Cache<int>)
    requires cache.Valid() && Scenario(cache)
    requires cache.Contents == [Item(C, 3), Item(B, 2)] && cache.evictions == [Item(A, 1)]
    modifies cache.Repr
    ensures cache.Valid() && fresh(cache.Repr - old(cache.Repr))
    ensures cache.Contents == [Item(D, 4), Item(B, 2)] && cache.evictions == [Item(A, 1), Item(C, 3)]
  {
    ghost var s3 := cache.Contents;
    var _, _ := cache.Get(B);
    GetB(s3);
    ghost var s4 := cache.Contents;
    cache.Add(D, 4);
    AddD(s4);
  }

  /**
   * The whole scenario: Add a, b, c; Get b; Add d. OnEvicted sees ("a", 1)
   * and then ("c", 3); two entries remain; "b" is a hit and "c" a miss.
   */
  method EvictionOrder() returns (evicted: seq<Item<int>>, n: nat, b: Option<int>, c: Option<int>)
    ensures evicted == [Item(A, 1), Item(C, 3)]
    ensures n == 2 && b == Some(2) && c == None
  {
    var cache := AddTwo();
    AddThird(cache);
    GetThenAdd(cache);
    LookupAfterD(cache.Contents);
    evicted := cache.evictions;
    n := cache.Len();
    var ok;
    b, ok := cache.Get(B);
    c, ok := cache.Get(C);
  }
}
