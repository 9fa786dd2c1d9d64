# xixibase cache manager in Dafny

This project models the in-memory cache manager of the xixibase server, in
`src/cache.cpp`. It covers `Cache_Mgr` and the per-client `Cache_Watch`.

- **The manager.** `Cache_Mgr` is the class `Cache.CacheMgr`. Its fields are
  the slab allocator (per-class free-list counts, `mem_used_`, the
  `last_class_id_` hint), the key index and the 34 expiration buckets, the
  counters `last_cache_id_` and `last_watch_id_`, the per-bucket sweep
  deadlines and the watch map.
- **Item buffers.** These are records in an arena `map<Handle, Item>`. A new
  buffer gets the next unused handle.
- **Pure transitions.** Every public operation is also written as a pure
  transition of the store. These live in `CacheOps` (ops.dfy) and
  `CacheSweep` (sweep.dfy), and each yields:
  - the new store;
  - the `notify_watch` call owed to watchers (a `Note`);
  - the results.
- **What each method proves.** Each method of `CacheMgr` is proved to
  perform its transition:
  - `Mem()` becomes the new store;
  - the result is the transition's result;
  - the watches are the old ones told the note.
- **What the lemmas state.** The effect lemmas say what the transitions
  mean, in terms of the map of served items `Cached(s)` (key to record):
  - which key is added, replaced, dropped or left alone;
  - with which cache id, data, flags, deadline and bucket;
  - which watches are told what.
- **The store invariant** (`CacheState.Ok`) is preserved by every
  operation. It says:
  - each index entry names a record with that key;
  - each linked record sits in exactly the bucket its `expiration_id`
    names, and only linked records sit in buckets;
  - every record holds at least one reference;
  - every buffer fits its slab class;
  - `mem_used_` is exactly the bytes on the free lists plus the allocated
    buffers, and never exceeds `mem_limit_`;
  - no free list is longer than its cap.
- **The watch registry.**
  - `Cache_Watch` is the class `Watch.CacheWatch`, with its own pure steps
    (`SetCallback`, `ClearCallback`, `Notify`).
  - The client sink (held weakly in the source) is an `Option<SinkId>`.
  - Every `on_cache_watch_notify` call is recorded in the watch's `fired`
    log.
- **Inputs that are parameters.** The clock (`now`) and the success of
  `malloc` (`mallocOk`) are passed in.
- **Behaviours kept as written.** The model keeps the code's behaviour
  where it departs from what a reader might expect:
  - `update_flags`, `update_expiration`, `append` and `prepend` keep the
    `do_get` reference on a CAS mismatch;
  - the mismatch path of `update_expiration` reports cache id `-1` (as
    `U64 - 1`);
  - `update_expiration` neither bumps the cache id nor notifies;
  - `append` and `prepend` put the new watch on the request record rather
    than on the record they link;
  - the in-place branch of `delta` notifies nobody;
  - on WATCH_NOT_FOUND, `add`, `set` and `replace` leave the request record
    unlinked and owned by the caller;
  - `get_touch` records the new deadline without moving the item to the
    bucket of that deadline.

## Model

| member | source | states |
|---|---|---|
| CacheTypes.NextCacheId | src/cache.cpp:201-206 | the next cache id is never 0: it is one more than the last, wrapping at 64 bits to 1 |
| Seqs.Remove | src/cache.cpp:286-288 | removing a handle from a bucket leaves exactly the other handles, and the bucket does not grow |
| Seqs.RemoveSplit | src/cache.cpp:393-409 | in a bucket without duplicates, removing the handle at a position leaves exactly the handles before and after it |
| Slab.ClassFor | src/cache.cpp:176-199 | the class of a size is the smallest table index whose size is at least the request, or 0 for size 0 or a size above the largest class |
| Slab.ClassForUnique | src/cache.cpp:176-199 | any index bracketing the size between its predecessor's size and its own is the answer |
| Slab.ClassForMonotonic | src/cache.cpp:176-199 | a larger request that fits never gets a smaller class or a smaller buffer size |
| Slab.LookupClass | src/cache.cpp:176-199 | the hint-driven up/down scan returns the smallest fitting class whatever the hint, and 0 above the largest class |
| Slab.Align | src/cache.cpp:157-159 | the aligned size is a multiple of 8 and less than 8 above the size |
| Slab.FreeCap | src/cache.cpp:162-165 | the cap is at most 1000 and its buffers fit in 1 MiB, and it is 1000 or the largest count that fits |
| Slab.BuildClassTable | src/cache.cpp:146-174 | init's table loop yields a table with a zero sentinel, strictly increasing 8-aligned sizes, the forced last class and the caps |
| Slab.ClassBytesInc | src/cache.cpp:341-358 | parking one more buffer of a class adds exactly that class's size to the free-list bytes |
| Expiration.ExpirationTimeIncreasing | src/cache.cpp:133-136 | the lower bounds are strictly increasing, so buckets do not overlap |
| Expiration.InBucketUnique | src/cache.cpp:364-379 | every deadline seen at a given time belongs to exactly one bucket |
| Expiration.GetExpirationId | src/cache.cpp:364-379 | 33 exactly for deadline 0, 0 for a deadline already passed, otherwise the r ≤ 32 with ET[r] ≤ remaining < ET[r+1] |
| Expiration.Bucket | src/cache.cpp:364-379 | the bucket as a function: one of the 34 buckets, with the same bracketing as get_expiration_id |
| Expiration.Finer | src/cache.cpp:283-291 | a survivor of bucket i moves to a bucket j ≤ i whose lower bound its remaining lifetime reaches, and that no bucket between j and i has |
| Expiration.FinerBucket | src/cache.cpp:283-291 | the downward loop returns the bucket Finer picks: at most i, with a lower bound the remaining lifetime reaches |
| Expiration.FinerFits | src/cache.cpp:283-291 | a survivor that moves lands in the bucket its remaining lifetime belongs to, when that bucket is at most i |
| Expiration.CheckDeadline | src/cache.cpp:273 | the next sweep deadline of a bucket is now plus the bucket's span when that fits in 32 bits, and the largest 32-bit time otherwise |
| Decimal.Digits | src/cache.cpp:1035 | at least one decimal digit, led by 0 only for the number 0 |
| Decimal.DigitsRoundTrip | src/cache.cpp:1027-1035 | reading back the digits of n gives n |
| Decimal.Wrap64 | src/cache.cpp:1028-1032 | the wrapped value is a signed 64-bit value congruent to the input modulo 2^64, and equal to it when already in range |
| Decimal.WrapUndo | src/cache.cpp:1028-1032 | adding then subtracting the same amount with wrap-around gives back every 64-bit value |
| Decimal.FormatInt | src/cache.cpp:1035 | well-formed decimal text, led by a minus sign exactly for negative values |
| Decimal.FormatIntFits | src/cache.cpp:1035 | every 64-bit value's text and its NUL fit the 25-byte buffer |
| Decimal.ParseInt | src/cache.cpp:1027 | the value read is a signed 64-bit value, and malformed text reads as 0 |
| Decimal.FormatParse | src/cache.cpp:1027-1035 | parsing the formatted text of any 64-bit value gives that value |
| Watch.NextSequence | src/cache.cpp:71 | the next batch sequence is never 0, and is one more than the last below the 32-bit limit |
| Watch.NewWatch | src/cache.cpp:31-35 | a fresh watch has no pending or committed ids and no sink |
| Watch.Deliver | src/cache.cpp:59-81 | with changes pending, the batch is exactly those ids under the next sequence, they become the in-flight list and the sink stays as it was; with nothing pending, the old sink is woken, the new one is armed and an empty batch goes out under sequence 0; the outstanding ids are kept |
| Watch.SetCallback | src/cache.cpp:38-82 | the deadline is always set; a stale ack gets the in-flight batch again under its old sequence, with sink and fired log untouched; otherwise (ack matches or nothing in flight) pending changes go out under the next sequence, or, with none pending, the old sink is woken, the caller's sink is armed and an empty batch under sequence 0 is returned |
| Watch.ClearCallback | src/cache.cpp:84-104 | another sink changes nothing; the armed sink is disarmed without being woken; when changes are pending and nothing is in flight they are committed and handed out under the next sequence, otherwise nothing is handed out and the lists and sequence stay; outstanding ids are kept |
| Watch.Notify | src/cache.cpp:106-114 | the outstanding ids and types gain this change; the armed sink, if any, is the one entry the fired log gains, and the sink is cleared |
| Watch.StaleAckRedelivers | src/cache.cpp:41-57 | a stale ack returns the committed batch and current sequence, changes only the deadline, and a repeat returns the identical batch |
| Watch.MatchingAckClears | src/cache.cpp:42-45 | after a matching ack only the pending ids are outstanding, and they are what is handed out |
| Watch.ArmedSinkWoken | src/cache.cpp:73-114 | a poll that finds nothing arms the caller's sink, and the next change wakes exactly that sink once and leaves only itself outstanding |
| Watch.DeliverThenAck | src/cache.cpp:38-82 | a batch acknowledged with its own sequence is removed and nothing else is lost |
| Watch.OutstandingKept | src/cache.cpp:38-114 | at-least-once delivery: ids leave the outstanding list only through a matching ack; every other step extends it |
| Watch.NotifyAll | src/cache.cpp:1164-1176 | the watches not listed are unchanged and no watch is added or removed |
| Watch.NotifyAllNotified | src/cache.cpp:1164-1176 | notifying watches only grows them: pending lists and fired log extended, everything else kept |
| Watch.NotifiedTrans | src/cache.cpp:106-114 | growth by notifications composes |
| Watch.CacheWatch.constructor | src/cache.cpp:31-35 | the new watch object's state is the fresh watch |
| Watch.CacheWatch.CheckAndSetCallback | src/cache.cpp:38-82 | the object's new state and the caller's lists and sequence are those of the SetCallback step |
| Watch.CacheWatch.CheckAndClearCallback | src/cache.cpp:84-104 | the object's new state and outputs are those of the ClearCallback step |
| Watch.CacheWatch.NotifyWatch | src/cache.cpp:106-114 | the object's new state is the Notify step |
| Watch.Unexpired | src/cache.cpp:1178-1188 | the watches kept at `now` are exactly the unexpired ones, unchanged |
| Watch.UnexpiredLater | src/cache.cpp:1178-1188 | sweeping at an earlier and then a later time equals sweeping at the later time |
| Watch.DropExpired | src/cache.cpp:1178-1188 | the erase loop leaves exactly the unexpired watches |
| Watch.Enrol | src/cache.cpp:1121-1131 | a fresh watch is filed under the unused id and no other watch changes |
| Watch.NotifyFiled | src/cache.cpp:1164-1176 | notifying the watch filed under an id changes that watch alone |
| Watch.SetFiled | src/cache.cpp:1133-1148 | check_and_set_callback on one filed watch changes that watch alone |
| Watch.ClearFiled | src/cache.cpp:1150-1162 | check_and_clear_callback on one filed watch changes that watch alone |
| Store.LinkStep | src/cache.cpp:381-391 | linking indexes the key and appends the handle to its bucket; the served items gain exactly that key |
| Store.UnlinkStep | src/cache.cpp:393-409 | unlinking drops the key and the handle from its bucket; the served items lose exactly that key |
| Store.Rebucket | src/cache.cpp:286-288 | moving a linked item to the front of another bucket keeps the linkage sound and changes only its bucket |
| CacheState.PoolTake | src/cache.cpp:309-315 | reusing a parked buffer keeps the accounting exact without new bytes |
| CacheState.PoolGrow | src/cache.cpp:316-331 | new bytes are counted and stay within the limit when the guard holds |
| CacheState.PoolGive | src/cache.cpp:341-358 | a freed buffer is parked when its list is below the cap, otherwise its bytes leave mem_used; the invariant holds either way |
| CacheState.InsertOk | src/cache.cpp:299-339 | allocation fails exactly when the free list is empty and new bytes exceed the limit or malloc fails; otherwise the new record is unlinked and served items are unchanged |
| CacheState.WrappedItemSize | src/cache.cpp:29 | `CALC_ITEM_SIZE` stored in 32 bits is the true size below 2^32 and congruent to it modulo 2^32 otherwise |
| CacheState.ClassAsWritten | src/cache.cpp:301-303 | the class the source looks up agrees with the class of the true size for every item under 2^32 bytes |
| CacheState.WrappedSizeOverflowsBuffer | src/cache.cpp:299-339 | a data size that brings the sum to 2^32 + 1 gets the smallest class, although the record is larger than that class and its true size has no class |
| CacheState.NewRecordOk | src/cache.cpp:299-339 | a new record has one reference, no watch, its bucket, and fits its class unless no class is big enough |
| CacheState.ReleaseOk | src/cache.cpp:427-433 | the buffer is freed exactly when the last reference goes; otherwise only the count drops |
| CacheState.RefRelease | src/cache.cpp:427-433 | taking and giving back a reference leaves the store exactly as it was |
| CacheState.FreeOk | src/cache.cpp:341-358 | freeing an unlinked record removes it and recycles its buffer; served items unchanged |
| CacheState.LinkOk | src/cache.cpp:381-391 | the linked record is stamped with the new cache id and served under its key; nothing else changes |
| CacheState.UnlinkOk | src/cache.cpp:393-409 | unlinking drops the key, the linkage's reference and the watch set; the record survives exactly when another reference remains |
| CacheState.UnlinkRef | src/cache.cpp:393-433 | unlinking a record with a do_get reference, then releasing it, is the plain unlink |
| CacheState.SupersedeOk | src/cache.cpp:435-438 | the key now maps to the new stamped record; the old one lost its linkage reference and watches |
| CacheState.SupersedeRef | src/cache.cpp:435-438 | replacing a record with a do_get reference, then releasing it, is the plain replace |
| CacheState.MoveOk | src/cache.cpp:649-651 | a bucket move keeps the index and changes only that record's bucket |
| CacheState.AllocFree | src/cache.cpp:299-358 | a record allocated and freed before linking leaves items, index and buckets as they were |
| CacheState.RefCached | src/cache.cpp:454-480 | a reference taken on a cached record changes only its reference count |
| CacheOps.ToldAllAppend | src/cache.cpp:1164-1176 | delivering two batches of notes in turn is delivering their concatenation |
| CacheOps.GetEffect | src/cache.cpp:508-544 | missing: NOT_FOUND, nothing changes; expired: unlinked with EXPIRED; unknown watch: reference given back; else handed out with one more reference and the watch |
| CacheOps.GetTouchEffect | src/cache.cpp:546-574 | the record takes the new deadline but keeps its bucket; it is handed out with the watch, or given back on WATCH_NOT_FOUND; nobody is told |
| CacheOps.AdmitDone | src/cache.cpp:762-778 | a new key is served by the request record, stamped with the new cache id and carrying the watch |
| CacheOps.OverwriteDone | src/cache.cpp:795-820 | an admitted overwrite serves the key from the stamped request record and tells the old record's watches DATA_UPDATED |
| CacheOps.AddEffect | src/cache.cpp:756-787 | a cached key gives EXISTS and no change; an unknown watch gives WATCH_NOT_FOUND and no change; otherwise the key is added |
| CacheOps.SetEffect | src/cache.cpp:789-840 | a CAS mismatch or unknown watch changes nothing; otherwise the key maps to the stamped request record, old watches told DATA_UPDATED |
| CacheOps.ReplaceEffect | src/cache.cpp:842-879 | missing: NOT_FOUND; mismatch: MISMATCH; unknown watch: WATCH_NOT_FOUND, each with no change; else the overwrite; never adds a key |
| CacheOps.ReplaceFound | src/cache.cpp:842-879 | replace of a cached key is exactly set's overwrite |
| CacheOps.ExtendEffect | src/cache.cpp:881-981 | NOT_FOUND; MISMATCH keeps the do_get reference; OUT_OF_MEMORY changes nothing; WATCH_NOT_FOUND keeps the served items; success serves the joined data under the new id |
| CacheOps.ExtendDone | src/cache.cpp:881-981 | success: data is old+new (append) or new+old (prepend) with old flags, deadline and ext; the watch lands on the request record |
| CacheOps.ExtendLeak | src/cache.cpp:888-891 | a CAS mismatch returns without releasing the do_get reference |
| CacheOps.DeltaEffect | src/cache.cpp:1010-1082 | NOT_FOUND and MISMATCH change nothing; same-length text is rewritten in place silently; otherwise OUT_OF_MEMORY changes nothing or a new record serves the text |
| CacheOps.DeltaInPlace | src/cache.cpp:1054-1066 | same-length text: the record takes the text, a new cache id and update time; nobody is told |
| CacheOps.DeltaRenewed | src/cache.cpp:1036-1053 | a changed length gives a new record with the text under a new cache id; old watches told DATA_UPDATED |
| CacheOps.DeltaReadsBack | src/cache.cpp:1027-1035 | the stored text reads back as the value reported |
| CacheOps.IncrDecr | src/cache.cpp:1028-1032 | incrementing then decrementing by the same amount restores the counter, wrap-around included |
| CacheOps.RemoveEffect | src/cache.cpp:983-1007 | NOT_FOUND and MISMATCH change nothing; otherwise the key is dropped and its watches told DELETED |
| CacheOps.UpdateFlagsEffect | src/cache.cpp:605-635 | missing: false, 0; mismatch: false, stored id, reference kept; else new flags, new cache id, watches told BASE_INFO_UPDATED |
| CacheOps.UpdateFlagsLeak | src/cache.cpp:624-628 | a CAS mismatch leaves the do_get reference on the cached record |
| CacheOps.UpdateExpirationEffect | src/cache.cpp:637-669 | nobody is told; mismatch: false, -1, reference kept; else the new deadline and its bucket, with the cache id unchanged |
| CacheOps.UpdateExpirationLeak | src/cache.cpp:658-662 | a CAS mismatch reports -1 and leaves the do_get reference |
| CacheSweep.Rechecked | src/cache.cpp:271-274 | each due bucket's deadline becomes now + its lower bound, every other is kept |
| CacheSweep.FlushScanGone | src/cache.cpp:1089-1100 | one bucket's scan unlinks the visited records of the group, in order, each announced FLUSHED |
| CacheSweep.FlushScanCached | src/cache.cpp:1089-1100 | one bucket's scan drops exactly the visited keys of the group from the cache |
| CacheSweep.FlushFromGone | src/cache.cpp:1084-1103 | flush unlinks, bucket by bucket, the group's records and announces each with FLUSHED |
| CacheSweep.FlushFromCached | src/cache.cpp:1084-1103 | flushing from a bucket drops exactly the group's keys in those buckets |
| CacheSweep.FlushEffect | src/cache.cpp:1084-1103 | afterwards the cache holds exactly its former records of other groups; the gone records are the group's, each announced FLUSHED |
| CacheSweep.ExpireScanGone | src/cache.cpp:274-293 | one bucket's scan unlinks its expired records, in order, each announced EXPIRED |
| CacheSweep.ExpireScanCached | src/cache.cpp:274-293 | one bucket's scan drops the visited expired keys and refiles the other visited records in the bucket Finer picks |
| CacheSweep.ExpireFromGone | src/cache.cpp:270-297 | the sweep unlinks, bucket by bucket, the expired records of the due buckets, each announced EXPIRED |
| CacheSweep.ExpireFromNever | src/cache.cpp:271 | the never-expire bucket 33 is untouched by the sweep |
| CacheSweep.ExpireFromCached | src/cache.cpp:270-297 | the sweep leaves the cache its record-by-record description gives |
| CacheSweep.ExpireEffect | src/cache.cpp:270-297 | expired records of due buckets are gone, survivors refiled, other buckets kept, bucket 33 unchanged, each gone record announced EXPIRED |
| CacheSweep.ExpireSorts | src/cache.cpp:270-297 | no expired record stays in a due bucket; each survivor keeps its contents in a bucket no coarser, whose bound its lifetime reaches |
| Cache.Probe | src/cache.cpp:1105-1115 | a found id is not in use and becomes the new last id |
| Cache.NthDistinct | src/cache.cpp:1105-1115 | fewer than 2^32 - 1 probes never meet the same id twice |
| Cache.ProbeExhausted | src/cache.cpp:1105-1115 | a probe run that finds nothing met only ids already in use |
| Cache.ProbeFinds | src/cache.cpp:1105-1115 | with fewer than 100 watches, get_watch_id finds a fresh id |
| Cache.GetOk | src/cache.cpp:508-544 | get preserves the store invariant |
| Cache.CacheMgr.constructor | src/cache.cpp:116-174 | the new manager is valid, empty, with no watches, mem_used 0 and the forced last class |
| Cache.CacheMgr.GetCacheId | src/cache.cpp:201-206 | returns and stores the next cache id, which is never 0 |
| Cache.CacheMgr.FreeItem | src/cache.cpp:341-358 | the store becomes the Free transition: record dropped, buffer parked or its bytes released |
| Cache.CacheMgr.DoReleaseReference | src/cache.cpp:427-433 | the store becomes the Release transition: count dropped, freed at zero |
| Cache.CacheMgr.DoLink | src/cache.cpp:381-391 | the store becomes Link with the next cache id, and that id is stored |
| Cache.CacheMgr.NotifyWatch | src/cache.cpp:1164-1176 | every listed existing watch is notified; the returned set keeps exactly the ids that exist |
| Cache.CacheMgr.DoUnlink | src/cache.cpp:393-409 | the store becomes Unlink and the record's watches are told the kind |
| Cache.CacheMgr.DoReplace | src/cache.cpp:435-438 | do_unlink with DATA_UPDATED then do_link |
| Cache.CacheMgr.MoveItem | src/cache.cpp:649-651 | the record leaves its bucket for the front of the new one |
| Cache.CacheMgr.GetClassId | src/cache.cpp:176-199 | returns ClassFor of the size; the hint moves to the answer unless the size is too large |
| Cache.CacheMgr.DoAlloc | src/cache.cpp:299-339 | succeeds exactly when a buffer fits; on failure nothing changes; on success the new record is at the next handle |
| Cache.CacheMgr.ItemSizeOk | src/cache.cpp:360-362 | true exactly when the item's total size is positive and at most the largest class |
| Cache.CacheMgr.AllocItem | src/cache.cpp:499-506 | the caller gets a fresh unlinked record with one reference, or nothing and no change |
| Cache.CacheMgr.Get | src/cache.cpp:508-544 | the manager performs the Get transition |
| Cache.CacheMgr.GetTouch | src/cache.cpp:546-574 | the manager performs the GetTouch transition |
| Cache.CacheMgr.Add | src/cache.cpp:756-787 | the manager performs the Add transition; the cache id advances only on success |
| Cache.CacheMgr.Set | src/cache.cpp:789-840 | the manager performs the Set transition; the cache id advances only on success |
| Cache.CacheMgr.Replace | src/cache.cpp:842-879 | the manager performs the Replace transition; the cache id advances only on success |
| Cache.CacheMgr.Extend | src/cache.cpp:881-981 | the manager performs the Extend transition for append and prepend |
| Cache.CacheMgr.Remove | src/cache.cpp:983-1007 | the manager performs the Remove transition |
| Cache.CacheMgr.Delta | src/cache.cpp:1010-1082 | the manager performs the Delta transition |
| Cache.CacheMgr.UpdateFlags | src/cache.cpp:605-635 | the manager performs the UpdateFlags transition |
| Cache.CacheMgr.UpdateExpiration | src/cache.cpp:637-669 | the manager performs the UpdateExpiration transition |
| Cache.CacheMgr.ReleaseReference | src/cache.cpp:671-675 | the caller's reference is given back |
| Cache.CacheMgr.GetWatchId | src/cache.cpp:1105-1115 | the id and new last id are those of Probe; a non-zero id is unused |
| Cache.CacheMgr.IsValidWatchId | src/cache.cpp:1117-1119 | true exactly for an id with a watch |
| Cache.CacheMgr.CreateWatch | src/cache.cpp:1121-1131 | with fewer than 100 watches a fresh id gets a new watch and no other changes; id 0 changes no watch |
| Cache.CacheMgr.CheckWatchAndSetCallback | src/cache.cpp:1133-1148 | false and no change for an unknown id; otherwise the SetCallback step on that watch alone |
| Cache.CacheMgr.CheckWatchAndClearCallback | src/cache.cpp:1150-1162 | false and no change for an unknown id; otherwise the ClearCallback step on that watch alone |
| Cache.CacheMgr.ExpireWatchs | src/cache.cpp:1178-1188 | the watches become the unexpired ones |
| Cache.CacheMgr.ExpireBucket | src/cache.cpp:274-293 | the scan of one bucket performs the ExpireScan transition over the bucket as it was, telling the watches each note |
| Cache.CacheMgr.ExpireItems | src/cache.cpp:270-297 | the store and watches become those of the sweep, and the due buckets' deadlines are rechecked |
| Cache.CacheMgr.CheckExpired | src/cache.cpp:208-220 | at an unchanged time nothing changes; otherwise expired watches are dropped, then the sweep runs |
| Cache.CacheMgr.FlushBucket | src/cache.cpp:1089-1100 | the scan of one bucket performs the FlushScan transition and counts its records and sizes |
| Cache.CacheMgr.Flush | src/cache.cpp:1084-1103 | performs the flush transition; the count and size are those of the records unlinked |

## Left out

- The `cache_lock_` lock and unlock calls. Each public method is one atomic transition; concurrency is not modelled.
- The `stats_` calls, `stats()` and `print_stats()`. They only report to a collaborator that is not part of this model.
- The floating-point growth factor in `init`. The candidate class sizes are a parameter of the constructor. Alignment, the caps and the forced last class are modelled.
- `load_from_file`: file I/O, settings and MIME lookup. Its install step is `add`.
- `do_unlink_flush` and `free_flushed_items`. `flush` no longer uses them, so the flush list `check_expired` frees is always empty.
- `get_base`: it is commented out in the source.
- `hash32`: the key index is a map from (group id, key bytes) to handle, so hashing and bucket collisions do not arise.
- Time is a parameter. `curr_time_` is not modelled: operations take the current time `now`. The `realtime(expiration)` conversions of a client's relative expiration (in `do_get_touch`, `alloc_item`, `update_expiration`, `create_watch` and `check_watch_and_set_callback`) are not modelled: those operations take the absolute deadline it yields.
- Memory has no addresses. `malloc` failure is the parameter `mallocOk`, and placement construction is a record in the arena.
- Buffers have no reused identities. A recycled buffer gets a fresh handle, so buffer address identity is not tracked.
- Watch sinks do not expire. A weakly held sink whose client has gone is not modelled, so an armed sink counts as alive.
- Unseen headers are assumed:
  - `next_sequence` is a 32-bit increment that skips 0;
  - `is_expired` means the deadline is before the given time;
  - `realtime(t, d)`, used for the sweep deadlines in `expire_items`, is `t + d` saturated at the largest 32-bit time (Expiration.CheckDeadline).
- Watch sets are sets. An item's `watch_item` is a set of watch ids, and the empty set stands for a missing watch set.
- Decimal.ParseInt: `safe_toi64` is not part of this model. It is written here as the value of well-formed 64-bit decimal text, and 0 otherwise.
- Decimal.FormatInt: `_snprintf` is written here as the shortest decimal text.
- Cache.CacheMgr.Flush: the count and size are unbounded naturals, so their 32- and 64-bit width is not modelled.
- CacheState.Ok: keeps only "every record holds at least one reference". The source's finer rule, that a linked record holds one reference for its link plus one per holder outside the cache, is not an invariant here, because references held by callers are not tracked. It is stated step by step instead: linking adds a reference, unlinking drops one, and Cache.CacheMgr.ReleaseReference requires a linked record to hold at least two, the link's and the caller's.
- Cache.CacheMgr.ItemSizeOk: the size is the true, unbounded sum, not the 32-bit `CALC_ITEM_SIZE` of the source; the source's wrapped lookup is CacheState.ClassAsWritten (see Findings).
- Cache.CacheMgr.DoAlloc: the class is looked up for the true, unbounded size, so an item of 2^32 bytes or more gets no class, where the source may give it a class too small for it (see Findings).
- Cache.CacheMgr.Extend: the joined data size of `append` and `prepend` (lines 892 and 943) is an unbounded length, not the 32-bit sum the source passes to `do_alloc`; it then goes through the corrected size check.
- Cache.CacheMgr.AllocItem: the size check is that of Cache.CacheMgr.DoAlloc, on the true size (see Findings). The caller passes the key, data and extension bytes, not only their lengths and a buffer to fill afterwards.

## Findings

| source | as written | input that shows it | evidently intended | confidence | as-written member | corrected member |
|---|---|---|---|---|---|---|
| src/cache.cpp:301 | the item size (`CALC_ITEM_SIZE`) is kept in a 32-bit variable, so it wraps modulo 2^32, and the class lookup and `item_size_ok` (361) see the wrapped value | key and extension length 0, `data_size` = 2^32 + 1 - `sizeof(Cache_Item)`: the size wraps to 1, the smallest class is chosen, and a caller that copies the data in writes far past the buffer | an item whose true size exceeds the largest class gets no class: `item_size_ok` answers false and `do_alloc` returns no buffer | medium, not executed | CacheState.WrappedSizeOverflowsBuffer | CacheState.NewRecordOk |
