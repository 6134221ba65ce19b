# Byte-bounded LRU cache (geecache/lru)

This project models the least-recently-used cache of `geecache/lru/lru.go` in Dafny and proves what its operations do.

A `Cache` combines two structures:
- a recency list `ll`. The front is the most recently used entry and the back is the least recently used one.
- an index `cache` from each key to that key's entry in the list.

In Go the index maps each key to a `*list.Element`, and that element holds the `*entry` record. The model merges the element and its record into one `Entry` object, which the list and the index share. The cache also keeps:
- `nbytes`, the running total of `len(key) + value.Len()` over the live entries;
- a byte budget `maxBytes`, where 0 means unbounded;
- an optional `OnEvicted` callback.

The project has three modules:

- `LruSpec` (`lru_spec.dfy`) reads the recency list as a value: a sequence of `(key, value)` items, front at index 0.
  - `Promote` is the list after a `Get`.
  - `Put` is the list after the first half of `Add`.
  - `Trim` and `Evicted` are what remains and what is removed by `Add`'s eviction loop.
  - The lemmas state what each of these guarantees.
- `Lru` (`lru.dfy`) is the cache itself.
  - `Entry` is a class with a `const key` and a mutable `value`. `Add`'s in-place `kv.value = value` therefore changes the entry that both the list and the index hold.
  - `Cache` is a class with the fields of the Go struct. `OnEvicted` becomes the constant flag `hasOnEvicted` plus a log (see below and "Left out").
  - A ghost field `Contents` reads the list as items.
  - A ghost field `Repr` is the cache's footprint: the cache object and every entry it has allocated.
  - `Valid()` is the invariant:
    - the cache and every entry of its list lie in `Repr`;
    - the list reads as `Contents`;
    - keys are unique;
    - the index holds exactly the list's keys and points at their entries;
    - `nbytes` is the exact byte count.
  - Every method keeps `Valid()`. Each method's new state is stated through the `LruSpec` functions.
  - Every method changes only objects in `Repr`, and any object it adds to `Repr` is newly allocated. A caller can therefore call the methods any number of times in a row.
- `LruScenarios` (`lru_scenarios.dfy`) is a client of the cache. It runs the eviction-order scenario through `Add` and `Get` on one cache: a 10-byte budget, one-byte keys, 3-byte values, with `Add` a, b, c, then `Get` b, then `Add` d.

`Get` and `Add` are split into smaller methods so that each proof stays small:
- `Touch` is the move-to-front step that `Get` and `Add` share.
- `Overwrite` and `OverwriteFront` are `Add`'s path for a present key.
- `Insert` is `Add`'s path for a new key.
- `EvictWhileOverBudget` is `Add`'s closing `for` loop.

These steps are not separate Go functions. Where a step changes less than the whole footprint, its frame is narrower than `Repr`: just the cache object, or the cache and the front entry.

The callback is modelled as a log: `evictions` records the `(key, value)` of every `OnEvicted` call, and `hasOnEvicted` says whether the callback is set.

## Model

| member | source | states |
|---|---|---|
| Lru.Entry.constructor | geecache/lru/lru.go:14-17 | A new entry holds the given key and value. `Insert` builds one with `&entry{key, value}` at lru.go:64. |
| Lru.Cache.Valid | geecache/lru/lru.go:5-11 | The struct invariant. The cache owns itself and its entries, the list reads as `Contents`, and keys are unique. The index holds exactly the list's keys and points at their entries. `nbytes` is the exact byte total. Its `ensures` adds that a valid cache has as many items as list entries and a non-negative `nbytes`. |
| Lru.Consistent | geecache/lru/lru.go:5-11 | The struct invariant on the fields' values (list, items, index, `nbytes`), apart from ownership. |
| Lru.Cache.New | geecache/lru/lru.go:24-31 | A new cache is valid and empty: no entries, `nbytes` is 0, nothing evicted. It keeps the given budget and callback, and its footprint is newly allocated. |
| Lru.Cache.Len | geecache/lru/lru.go:73-75 | The list length equals both the number of live entries and the number of keys in the index. |
| Lru.Cache.Get | geecache/lru/lru.go:34-42 | A hit returns the key's stored value with `ok` true and moves its entry to the front; the others keep their order. A miss returns None with `ok` false and changes nothing. Either way the keys, `nbytes` and the evictions are unchanged, and the invariant holds afterwards. |
| Lru.Cache.Touch | geecache/lru/lru.go:35-39 | For a present key: its entry moves to the front and the list becomes `Promote` of the old list. The returned value is the one stored under the key. The index and `nbytes` do not change. |
| Lru.Cache.RemoveOldset | geecache/lru/lru.go:44-55 | An empty cache is left unchanged. Otherwise exactly the back entry leaves both the list and the index, and the other entries keep their order. `nbytes` drops by that entry's `len(key) + Len()`. With a callback set, one `OnEvicted` call with that pair is logged. |
| Lru.Cache.Overwrite | geecache/lru/lru.go:58-62 | For a present key, the list becomes `Put`: the entry is at the front with the new value and the others keep their order. `nbytes` changes by the new value's size minus the old value's size. The index is unchanged and no eviction is logged. |
| Lru.Cache.OverwriteFront | geecache/lru/lru.go:60-62 | The front entry takes the new value in place, so the index sees it too. `nbytes` moves by the difference of the two sizes, and every other entry is unchanged. |
| Lru.Cache.Insert | geecache/lru/lru.go:63-66 | For an absent key, a new entry is pushed at the front. The index maps the key to that newly allocated entry and keeps every other key's entry. `nbytes` grows by `len(key) + value.Len()` and no eviction is logged. The footprint grows by exactly that new entry. |
| Lru.Cache.EvictWhileOverBudget | geecache/lru/lru.go:68-70 | The loop terminates. What remains is `Trim` of the list, and the log gains `Evicted` of the list (back to front) when the callback is set. Afterwards `maxBytes == 0 || nbytes <= maxBytes`. |
| Lru.Cache.Add | geecache/lru/lru.go:57-71 | The list ends as `Trim(Put(old list, key, value))`. The log gains exactly the items evicted from `Put(...)`, oldest first. The budget holds afterwards, and the invariant is kept. Only objects the cache owns change, and the footprint grows only by newly allocated objects. |
| Lru.ConsistentMoveToFront | geecache/lru/lru.go:36 | Moving the key's entry to the front keeps the invariant, and the list then reads as `Promote`. |
| Lru.ConsistentDropLast | geecache/lru/lru.go:45-50 | Removing the back entry from the list and its key from the index keeps the invariant, with `nbytes` lowered by that entry's bytes. |
| Lru.ConsistentPush | geecache/lru/lru.go:64-66 | Pushing a new key's entry and indexing it keeps the invariant, with `nbytes` raised by its bytes. The result is `Put` of the old list. |
| Lru.MoveToFront | geecache/lru/lru.go:36 | The given element is at the front, and the list is a permutation of the old one. |
| LruSpec.PromoteProperties | geecache/lru/lru.go:34-41 | Get changes only the order. The keys, the value stored under each key, the count and the bytes are all the same. A hit ends at the front with the rest in its old order; a miss leaves the list as it was. |
| LruSpec.PutProperties | geecache/lru/lru.go:57-66 | After `Add`'s first half, `(key, value)` is at the front and every other key keeps its value and relative order. The count grows only for a new key. Bytes change by `len(key) + Len()` for a new key and by the size difference for an existing one. |
| LruSpec.PutIsPromoteThenOverwrite | geecache/lru/lru.go:58-62 | For a present key, `Put` equals promoting the key and then overwriting the front value. The bytes change by the difference of the two values' sizes. |
| LruSpec.TrimProperties | geecache/lru/lru.go:68-70 | The loop evicts from the back only, oldest first. What remains is a prefix within budget. The evicted items are the rest of the list, taken back to front. The loop stops as soon as the budget holds, and removes nothing when the list is already within budget. |
| LruSpec.OversizedEvictsItself | geecache/lru/lru.go:57-70 | An entry larger than a non-zero budget empties the cache and is itself the last entry evicted. |
| LruSpec.NegativeLimitNeverSatisfied | geecache/lru/lru.go:68 | With a negative budget the loop guard holds for every prefix of the list, the empty one included. Those prefixes are every state the loop can reach, since `RemoveOldset` only drops the back entry and does nothing on an empty list. |
| LruSpec.OverBudget | geecache/lru/lru.go:68 | The loop guard: the budget is non-zero and below the byte count. |
| LruSpec.UnboundedNeverEvicts | geecache/lru/lru.go:68-70 | With a budget of 0 the loop evicts nothing and the list is kept whole. |
| LruScenarios.EvictionOrder | geecache/lru/lru.go:34-71 | Driven through `Add` and `Get` on one 10-byte cache with 3-byte values: `Add` a, b, c evicts "a"; after `Get` b, `Add` d evicts "c" and not "b". `OnEvicted` sees exactly ("a", 1) then ("c", 3). Two entries remain, "b" is a hit and "c" a miss. |
| LruSpec.KeysCount | geecache/lru/lru.go:73-75 | With unique keys, the index has exactly as many keys as the list has entries. |
| LruSpec.KeysDropLast | geecache/lru/lru.go:45-49 | Evicting the back entry removes exactly its key from the key set. |
| LruSpec.LookupKeys | geecache/lru/lru.go:35-41 | A lookup succeeds exactly for the keys in the list, and returns the value of the entry holding that key. |
| LruSpec.WithoutSize | geecache/lru/lru.go:57-66 | Taking out a present key removes one entry and exactly its bytes. Taking out an absent key removes nothing. |
| LruSpec.UniqueKeysIff | geecache/lru/lru.go:8-9 | The front-to-back form of key uniqueness that the invariant uses is equivalent to pairwise distinct keys. |
| LruSpec.PromoteAt | geecache/lru/lru.go:36-39 | Promoting the key at a known position moves that item to the front. Unique keys, the key set and the bytes are kept, and the item's value is what a lookup of its key returns. |
| LruSpec.ReplaceFront | geecache/lru/lru.go:60-62 | A new value for the front item keeps unique keys and the key set. The bytes change by the size difference. |
| LruSpec.FrontThenRest | geecache/lru/lru.go:57-66 | One item at the front followed by the rest in their old order: keys stay distinct, and every other key's lookup is unchanged. |

## Left out

- `int64` overflow of `nbytes` and of the `int64(...)` conversions is not modelled: all counts are unbounded integers.
- Lru.Cache.New takes `maxBytes` as a `nat`. Go accepts any `int64`, and with a negative budget `Add` never returns (see Findings).
- `Value.Len()` is modelled as a fixed function `valueLen: V -> nat` given to `New`. A `Len` that returns a negative number, or whose result for a value changes over time, is not modelled.
- `OnEvicted` is modelled as a log of its arguments. What the callback itself does is not modelled, including re-entering the cache.
- `container/list` is modelled as a sequence of entries with the front at index 0. Its pointer-level internals are not modelled. Finding an element's position is a linear search where Go holds an element handle.
- Go's `(nil, false)` on a miss is modelled as `(None, false)`.
- Concurrency is not modelled. The Go cache is unsynchronised, and any locking belongs to code outside this file.
- `OnEvicted` is an exported field in Go, so a caller can set, replace or clear it after `New`. The model fixes whether a callback is set (`hasOnEvicted`) when the cache is built.
- Go's `Add` panics at `value.Len()` when given a nil `Value`. The model's value type `V` has no nil, so that panic path is not modelled.

## Findings

| source | as written | input that shows it | evidently intended | confidence | as-written member | corrected member |
|---|---|---|---|---|---|---|
| geecache/lru/lru.go:68-70 | `New` accepts any `int64` budget. `Add`'s loop runs while `maxBytes != 0 && maxBytes < nbytes`. | `New(-1, nil)` then `Add("k", v)`: the guard holds even after the list is empty, and `RemoveOldset` on an empty list does nothing, so the loop never ends | A budget is never negative (or a negative one means unbounded), so the loop always terminates | not executed; high | LruSpec.NegativeLimitNeverSatisfied | Lru.Cache.EvictWhileOverBudget |
