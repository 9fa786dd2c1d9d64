/** The cache manager `Cache_Mgr` as a class: the allocator, the hash index
    and the expiration buckets as fields updated in place, and the watches
    as `CacheWatch` objects in `watchMap`. Every public method is proved to
    do to the store what the matching transition of `CacheOps` or
    `CacheSweep` does, and to tell the watches what that transition owes
    them; the properties of those transitions are proved there. */
module Cache {
  import opened CacheTypes
  import opened Seqs
  import opened Slab
  import opened Expiration
  import opened Store
  import opened Watch
  import opened Decimal
  import opened CacheState
  import opened CacheOps
  import opened CacheSweep
  import opened CacheSteps

  /** The number of ids `get_watch_id` tries before giving up. */
  const PROBES: nat := 100

  /** The successor of a watch id in `get_watch_id`: 32-bit wrap-around,
      skipping 0. */
  function NextWatchId(last: u32): (r: u32)
    ensures r != 0
  {
    if last + 1 == U32 then 1 else last + 1
  }

  /** `get_watch_id` (1105-1115) as a function: up to `n` probes after
      `last`; the id found (0: none) and the new `last_watch_id_`. */
  function Probe(keys: set<u32>, last: u32, n: nat): (r: (u32, u32))
    ensures r.0 != 0 ==> r.0 !in keys && r.0 == r.1
    decreases n
  {
    if n == 0 then (0, last)
    else
      var c := NextWatchId(last);
      if c !in keys then (c, c) else Probe(keys, c, n - 1)
  }

  /** The `k`-th id after `last` (`k` at least 1), in closed form. */
  function Nth(last: u32, k: nat): u32
    requires k >= 1
  {
    (last - 1 + k) % (U32 - 1) + 1
  }

  lemma NthFirst(last: u32)
    ensures Nth(last, 1) == NextWatchId(last)
  {
  }

  lemma {:induction false} NthNext(last: u32, k: nat)
    requires k >= 1
    ensures Nth(NextWatchId(last), k) == Nth(last, k + 1)
  {
  }

  /** Fewer than `U32 - 1` probes never meet the same id twice. */
  lemma NthDistinct(last: u32, a: nat, b: nat)
    requires 1 <= a < b < U32 - 1
    ensures Nth(last, a) != Nth(last, b)
  {
    var M := U32 - 1;
    var x, y := last - 1 + a, last - 1 + b;
    var qx, qy := x / M, y / M;
    assert x == qx * M + x % M;
    assert y == qy * M + y % M;
  }

  /** The ids the first `n` probes after `last` look at. */
  ghost function Probed(last: u32, n: nat): set<u32>
  {
    set k | 1 <= k <= n :: Nth(last, k)
  }

  lemma {:induction false} ProbedSize(last: u32, n: nat)
    requires n < U32 - 1
    ensures |Probed(last, n)| == n
  {
    if n > 0 {
      ProbedSize(last, n - 1);
      assert Probed(last, n) == Probed(last, n - 1) + {Nth(last, n)};
      forall k | 1 <= k <= n - 1 ensures Nth(last, k) != Nth(last, n) {
        NthDistinct(last, k, n);
      }
    } else {
      assert Probed(last, 0) == {};
    }
  }

  /** A probe run that finds nothing met only ids already in use. */
  lemma {:induction false} ProbeExhausted(keys: set<u32>, last: u32, n: nat)
    requires Probe(keys, last, n).0 == 0
    ensures Probed(last, n) <= keys
    decreases n
  {
    if n > 0 {
      var c := NextWatchId(last);
      NthFirst(last);
      ProbeExhausted(keys, c, n - 1);
      forall k | 1 <= k <= n ensures Nth(last, k) in keys {
        if k > 1 {
          NthNext(last, k - 1);
          assert Nth(c, k - 1) in Probed(c, n - 1);
        }
      }
    }
  }

  lemma SubsetSize(a: set<u32>, b: set<u32>)
    requires a <= b
    ensures |a| <= |b|
  {
    assert b == a + (b - a);
  }

  /** `get_watch_id` hands out a fresh id whenever fewer than 100 watches
      exist. */
  lemma ProbeFinds(keys: set<u32>, last: u32)
    requires |keys| < PROBES
    ensures Probe(keys, last, PROBES).0 != 0 && Probe(keys, last, PROBES).0 !in keys
  {
    if Probe(keys, last, PROBES).0 == 0 {
      ProbeExhausted(keys, last, PROBES);
      ProbedSize(last, PROBES);
      SubsetSize(Probed(last, PROBES), keys);
    }
  }

  /** Notifying one more id changes that watch alone. */
  lemma NotifyAllStep(m: map<u32, WatchState>, done: set<u32>, id: u32, cacheId: u64, t: NotifyType)
    requires forall j :: j in m ==> Parallel(m[j])
    requires id !in done
    ensures var r := NotifyAll(m, done, cacheId, t);
      NotifyAll(m, done + {id}, cacheId, t) == if id in m then r[id := Notify(r[id], cacheId, t)] else r
  {
  }

  // ---------------- the operations unfolded ----------------

  lemma GetOk(cfg: Config, s: MemState, k: Key, watchId: u32, live: set<u32>, now: u32)
    requires Ok(cfg, s)
    ensures Ok(cfg, CacheOps.Get(cfg, s, k, watchId, live, now).s)
  {
    GetEffect(cfg, s, k, watchId, live, now);
  }

  /** `get` of a missing key. This and the three lemmas below only unfold
      one branch of CacheOps.Get for the steps of CacheMgr.Get; what `get`
      promises is stated by CacheOps.GetEffect. */
  lemma GetMissing(cfg: Config, s: MemState, k: Key, watchId: u32, live: set<u32>, now: u32)
    requires Ok(cfg, s) && k !in s.index
    ensures CacheOps.Get(cfg, s, k, watchId, live, now) == Done(s, Quiet, Fetched(None, 0, NotFound))
  {
  }

  /** `get` of a record past its deadline (an unfolding step). */
  lemma GetDead(cfg: Config, s: MemState, k: Key, watchId: u32, live: set<u32>, now: u32)
    requires Ok(cfg, s) && k in s.index && HasExpired(s.items[s.index[k]], now)
    ensures var x := s.index[k];
      && Holds(cfg, s, x) && s.items[x].refCount >= 1 && s.items[x].expirationId < |s.lists|
      && CacheOps.Get(cfg, s, k, watchId, live, now)
         == Done(Unlink(cfg, s, x), Announce(s.items[x], Expired), Fetched(None, 0, NotFound))
  {
    Placed(cfg, s, s.index[k]);
  }

  /** `get` of a live record under an unknown watch id (an unfolding step). */
  lemma GetUnwatchedBranch(cfg: Config, s: MemState, k: Key, watchId: u32, live: set<u32>, now: u32)
    requires Ok(cfg, s) && k in s.index && !HasExpired(s.items[s.index[k]], now)
    requires watchId != 0 && watchId !in live
    ensures var x := s.index[k]; var s1 := Ref(s, x);
      && Holds(cfg, s1, x) && s1.items[x].refCount >= 1
      && CacheOps.Get(cfg, s, k, watchId, live, now)
         == Done(Release(cfg, s1, x), Quiet, Fetched(None, Remaining(s.items[x], now), WatchNotFound))
  {
    Placed(cfg, s, s.index[k]);
  }

  /** `get` of a live record handed out (an unfolding step). */
  lemma GetHandedBranch(cfg: Config, s: MemState, k: Key, watchId: u32, live: set<u32>, now: u32)
    requires Ok(cfg, s) && k in s.index && !HasExpired(s.items[s.index[k]], now)
    requires watchId == 0 || watchId in live
    ensures var x := s.index[k];
      CacheOps.Get(cfg, s, k, watchId, live, now)
      == Done(AddWatch(Ref(s, x), x, watchId), Quiet, Fetched(Some(x), Remaining(s.items[x], now), Success))
  {
    var x := s.index[k];
    var it := s.items[x];
    Placed(cfg, s, x);
    if watchId != 0 {
      RewriteTwice(s, x, it.(refCount := it.refCount + 1), Watched(it, watchId).(refCount := it.refCount + 1));
    } else {
      assert Rewrite(Ref(s, x), x, Ref(s, x).items[x]) == Ref(s, x);
    }
  }

  /** `Cache_Mgr`. `cfg` is the layout `init` fixes; the store fields are
      the allocator (`free_cache_list_` as per-class counts, `mem_used_`),
      the item buffers, the hash index and the 34 expiration buckets. */
  class CacheMgr {
    const cfg: Config
    var freeCount: seq<nat>
    var memUsed: nat
    var items: Arena
    var next: Handle
    var index: Index
    var lists: Buckets
    var lastCacheId: u64
    var lastClassId: nat
    var lastWatchId: u32
    var lastCheckExpiredTime: u32
    var expireCheckTime: seq<u32>
    var watchMap: map<u32, CacheWatch>

    /** The store fields as one value. */
    ghost function Mem(): MemState
      reads this`freeCount, this`memUsed, this`items, this`next, this`index, this`lists
    {
      MemState(freeCount, memUsed, items, next, index, lists)
    }

    /** The states of the watches, by id. */
    ghost function Watches(): map<u32, WatchState>
      reads this`watchMap, watchMap.Values
    {
      States(watchMap)
    }

    /** Each watch is sound and filed under its own id (so distinct ids
        name distinct watches). */
    ghost predicate WatchesOk()
      reads this`watchMap, watchMap.Values
    {
      Registered(watchMap)
    }

    /** The class table is well formed, the lookup hint within it, and
        there is one sweep deadline per swept bucket. */
    ghost predicate Shaped()
      reads this`lastClassId, this`expireCheckTime
    {
      && TableOk(cfg.maxSize, cfg.classIdMax)
      && lastClassId <= cfg.classIdMax
      && |expireCheckTime| == SWEPT
    }

    ghost predicate Valid()
      reads this`freeCount, this`memUsed, this`items, this`next, this`index, this`lists
      reads this`lastClassId, this`expireCheckTime, this`watchMap, watchMap.Values
    {
      Shaped() && Ok(cfg, Mem()) && WatchesOk()
    }

    /** `Cache_Mgr()` (116-141) followed by `init` (146-174). `sizes` are
        the candidate class sizes `init`'s floating-point growth produces,
        `header + itemSizeMax` the forced last class, `classIdCap` the
        table capacity `CLASSID_MAX` and `limit` the memory limit. */
    constructor (header: nat, sizes: seq<nat>, itemSizeMax: nat, classIdCap: nat, limit: nat)
      requires classIdCap >= CLASSID_MIN
      requires forall k :: 0 <= k < |sizes| ==> sizes[k] > 0
      requires CandidatesOk(sizes, header + itemSizeMax)
      ensures Valid()
      ensures Cached(Mem()) == map[] && Watches() == map[] && memUsed == 0
      ensures cfg.header == header && cfg.memLimit == limit
      ensures cfg.maxSize[cfg.classIdMax] == header + itemSizeMax
    {
      var maxSize, freeMax, classIdMax := BuildClassTable(sizes, header + itemSizeMax, classIdCap);
      cfg := Config(header, maxSize, freeMax, classIdMax, limit);
      freeCount := seq(|maxSize|, _ => 0);
      memUsed := 0;
      items := map[];
      next := 0;
      index := map[];
      lists := seq(BUCKETS, _ => []);
      lastCacheId := 0;
      lastClassId := CLASSID_MIN;
      lastWatchId := 0;
      lastCheckExpiredTime := 0;
      expireCheckTime := seq(SWEPT, _ => 0);
      watchMap := map[];
      new;
      ClassBytesZero(freeCount, maxSize, |freeCount|);
      assert Contents(items, index) == map[];
    }

    // ---------------- the store primitives ----------------

    /** `get_cache_id` (201-206). */
    method GetCacheId() returns (id: u64)
      modifies this`lastCacheId
      ensures id == NextCacheId(old(lastCacheId)) && lastCacheId == id
    {
      if lastCacheId + 1 == U64 {
        lastCacheId := 1;
      } else {
        lastCacheId := lastCacheId + 1;
      }
      id := lastCacheId;
    }

    /** The `ref_count++` of `do_get` (440-452) on a record it found. */
    method DoRef(x: Handle)
      requires x in items
      modifies this`items
      ensures Mem() == Ref(old(Mem()), x)
      ensures Watches() == old(Watches()) && (old(WatchesOk()) ==> WatchesOk())
      ensures Shaped() == old(Shaped())
    {
      items := items[x := items[x].(refCount := items[x].refCount + 1)];
    }

    /** `free_item` (341-358). */
    method FreeItem(h: Handle)
      requires Holds(cfg, Mem(), h)
      modifies this`items, this`freeCount, this`memUsed
      ensures Mem() == Free(cfg, old(Mem()), h)
      ensures Watches() == old(Watches()) && (old(WatchesOk()) ==> WatchesOk())
      ensures Shaped() == old(Shaped())
    {
      var c := items[h].classId;
      items := items - {h};
      if freeCount[c] < cfg.freeMax[c] {
        freeCount := freeCount[c := freeCount[c] + 1];
      } else {
        memUsed := memUsed - cfg.maxSize[c];
      }
    }

    /** `do_release_reference` (427-433). */
    method DoReleaseReference(h: Handle)
      requires Holds(cfg, Mem(), h) && items[h].refCount >= 1
      modifies this`items, this`freeCount, this`memUsed
      ensures Mem() == Release(cfg, old(Mem()), h)
      ensures Watches() == old(Watches()) && (old(WatchesOk()) ==> WatchesOk())
      ensures Shaped() == old(Shaped())
    {
      items := items[h := items[h].(refCount := items[h].refCount - 1)];
      if items[h].refCount == 0 {
        FreeItem(h);
      }
    }

    /** `do_link` (381-391). */
    method DoLink(h: Handle, now: u32)
      requires h in items && items[h].expirationId < |lists|
      modifies this`items, this`index, this`lists, this`lastCacheId
      ensures Mem() == Link(old(Mem()), h, NextCacheId(old(lastCacheId)), now)
      ensures lastCacheId == NextCacheId(old(lastCacheId))
      ensures Watches() == old(Watches()) && (old(WatchesOk()) ==> WatchesOk())
      ensures Shaped() == old(Shaped())
    {
      var it := items[h];
      index := index[KeyOf(it) := h];
      var id := GetCacheId();
      items := items[h := it.(cacheId := id, lastUpdateTime := now, refCount := it.refCount + 1)];
      lists := lists[it.expirationId := lists[it.expirationId] + [h]];
    }

    /** Tells the watch filed under `id`, if there is one, one change:
        one more step of notifying the ids of `done + {id}`. */
    method NotifyOne(ghost w0: map<u32, WatchState>, ghost done: set<u32>, id: u32, cacheId: u64, kind: NotifyType)
      requires WatchesOk() && id !in done
      requires forall j :: j in w0 ==> Parallel(w0[j])
      requires Watches() == NotifyAll(w0, done, cacheId, kind)
      modifies watchMap.Values
      ensures WatchesOk() && watchMap == old(watchMap)
      ensures Watches() == NotifyAll(w0, done + {id}, cacheId, kind)
    {
      NotifyAllStep(w0, done, id, cacheId, kind);
      if id in watchMap {
        NotifyFiled(watchMap, id, cacheId, kind);
      }
    }

    /** `notify_watch` of the manager (1164-1176): each id of `ids` that
        names a watch is told `cacheId` and `kind`; `kept` is what is left
        of `ids` once the ids of watches that no longer exist are erased. */
    method NotifyWatch(ids: set<u32>, cacheId: u64, kind: NotifyType) returns (kept: set<u32>)
      requires WatchesOk()
      modifies watchMap.Values
      ensures WatchesOk()
      ensures Watches() == NotifyAll(old(Watches()), ids, cacheId, kind)
      ensures kept == ids * watchMap.Keys
    {
      ghost var w0 := Watches();
      var rest := ids;
      ghost var done: set<u32> := {};
      kept := {};
      while rest != {}
        invariant done == ids - rest && rest <= ids
        invariant kept == done * watchMap.Keys
        invariant WatchesOk()
        invariant Watches() == NotifyAll(w0, done, cacheId, kind)
        decreases rest
      {
        var id :| id in rest;
        NotifyOne(w0, done, id, cacheId, kind);
        if id in watchMap {
          kept := kept + {id};
        }
        rest := rest - {id};
        done := done + {id};
      }
      assert done == ids;
    }

    /** The rewrite of the record at `h` that `add_watch(watchId)` makes;
        the manager calls it only for a watch id other than 0. */
    method AddWatchTo(h: Handle, watchId: u32)
      requires h in items
      modifies this`items
      ensures Mem() == AddWatch(old(Mem()), h, watchId)
      ensures Watches() == old(Watches()) && (old(WatchesOk()) ==> WatchesOk())
      ensures Shaped() == old(Shaped())
    {
      if watchId != 0 {
        items := items[h := Watched(items[h], watchId)];
      }
    }

    /** The watch half of `do_unlink` (403-407): the watches of the
        item's watch set, if it has one, are told `kind`. */
    method NotifyItem(it: Item, kind: NotifyType) returns (kept: set<u32>)
      requires WatchesOk()
      modifies watchMap.Values
      ensures WatchesOk()
      ensures Watches() == Told(old(Watches()), Announce(it, kind))
      ensures kept == it.watchers * watchMap.Keys
      ensures Shaped() == old(Shaped())
    {
      kept := {};
      if it.watchers != {} {
        kept := NotifyWatch(it.watchers, it.cacheId, kind);
      }
    }

    /** The store half of `do_unlink` before the release: the key leaves
        the index, the record its bucket, and the watch set is deleted. */
    method DoDetach(h: Handle)
      requires h in items && items[h].expirationId < |lists|
      modifies this`items, this`index, this`lists
      ensures Mem() == Detach(old(Mem()), h)
      ensures Watches() == old(Watches()) && (old(WatchesOk()) ==> WatchesOk())
      ensures Shaped() == old(Shaped())
    {
      var it := items[h];
      var e := it.expirationId;
      index := index - {KeyOf(it)};
      lists := lists[e := Seqs.Remove(lists[e], h)];
      items := items[h := it.(watchers := {})];
    }

    /** `do_unlink` (393-409): the key leaves the index and the record its
        bucket, the watches of its watch set are told `kind` and the set is
        deleted, and the linkage's reference is given up. */
    method DoUnlink(h: Handle, kind: NotifyType)
      requires Holds(cfg, Mem(), h) && items[h].refCount >= 1 && items[h].expirationId < |lists|
      requires WatchesOk()
      modifies this`items, this`index, this`lists, this`freeCount, this`memUsed, watchMap.Values
      ensures WatchesOk()
      ensures Mem() == Unlink(cfg, old(Mem()), h)
      ensures Watches() == Told(old(Watches()), Announce(old(items[h]), kind))
      ensures Shaped() == old(Shaped())
    {
      var _ := NotifyItem(items[h], kind);
      label told:
      DoDetach(h);
      DoReleaseReference(h);
      assert unchanged@told(watchMap.Values);
    }

    /** The `do_replace` (435-438) of the linked record `x` by `n`:
        `do_unlink` with DATA_UPDATED, then `do_link`. */
    method DoReplace(x: Handle, n: Handle, now: u32)
      requires Holds(cfg, Mem(), x) && items[x].refCount >= 1 && items[x].expirationId < |lists|
      requires n in items && n != x && items[n].expirationId < |lists|
      requires WatchesOk()
      modifies this`items, this`index, this`lists, this`freeCount, this`memUsed, this`lastCacheId, watchMap.Values
      ensures WatchesOk()
      ensures Mem() == Supersede(cfg, old(Mem()), x, n, NextCacheId(old(lastCacheId)), now)
      ensures lastCacheId == NextCacheId(old(lastCacheId))
      ensures Watches() == Told(old(Watches()), Announce(old(items[x]), DataUpdated))
      ensures Shaped() == old(Shaped())
    {
      DoUnlink(x, DataUpdated);
      DoLink(n, now);
    }

    /** The bucket move of `update_expiration` (649-651) and of
        `expire_items` (286-288): out of its bucket, into the front of
        bucket `e`. */
    method MoveItem(h: Handle, e: nat)
      requires h in items && items[h].expirationId < |lists| && e < |lists|
      modifies this`items, this`lists
      ensures Mem() == MoveToBucket(old(Mem()), h, e)
      ensures Watches() == old(Watches()) && (old(WatchesOk()) ==> WatchesOk())
      ensures Shaped() == old(Shaped())
    {
      var it := items[h];
      var mid := lists[it.expirationId := Seqs.Remove(lists[it.expirationId], h)];
      items := items[h := it.(expirationId := e)];
      lists := mid[e := [h] + mid[e]];
    }

    /** `do_get_touch` (482-497) on a record it found: a reference for the
        caller and the new absolute deadline. */
    method DoTouch(x: Handle, expireTime: u32)
      requires x in items
      modifies this`items
      ensures Mem() == Touch(old(Mem()), x, expireTime)
      ensures Watches() == old(Watches()) && (old(WatchesOk()) ==> WatchesOk())
      ensures Shaped() == old(Shaped())
    {
      items := items[x := items[x].(refCount := items[x].refCount + 1, expireTime := expireTime)];
    }

    /** An in-place write of the record at `x`. */
    method PutItem(x: Handle, it: Item)
      modifies this`items
      ensures Mem() == Rewrite(old(Mem()), x, it)
      ensures Watches() == old(Watches()) && (old(WatchesOk()) ==> WatchesOk())
      ensures Shaped() == old(Shaped())
    {
      items := items[x := it];
    }

    /** `get_class_id` (176-199) with the one-slot hint `last_class_id_`. */
    method GetClassId(size: nat) returns (id: nat)
      requires Shaped()
      modifies this`lastClassId
      ensures Shaped()
      ensures id == ClassFor(cfg.maxSize, cfg.classIdMax, size)
      ensures lastClassId == if size > cfg.maxSize[cfg.classIdMax] then old(lastClassId) else id
    {
      id, lastClassId := LookupClass(cfg.maxSize, cfg.classIdMax, lastClassId, size);
    }

    /** The buffer search of `do_alloc` (309-331) for the record `rec`: a
        parked buffer of its class, else new bytes within the limit when
        `malloc` succeeds. The record goes in at the next handle. */
    method Place(rec: Item, mallocOk: bool) returns (n: Option<Handle>)
      requires rec.classId < |freeCount| && rec.classId < |cfg.maxSize|
      modifies this`items, this`next, this`freeCount, this`memUsed
      ensures var r := Insert(cfg, old(Mem()), rec, mallocOk);
        && (n.None? <==> r.None?)
        && (n.None? ==> Mem() == old(Mem()))
        && (n.Some? ==> n.value == old(next) && Mem() == r.value)
      ensures Watches() == old(Watches()) && (old(WatchesOk()) ==> WatchesOk())
      ensures Shaped() == old(Shaped())
    {
      var c := rec.classId;
      if freeCount[c] > 0 {
        freeCount := freeCount[c := freeCount[c] - 1];
      } else if memUsed + cfg.maxSize[c] <= cfg.memLimit && mallocOk {
        memUsed := memUsed + cfg.maxSize[c];
      } else {
        return None;
      }
      items := items[next := rec];
      n := Some(next);
      next := next + 1;
    }

    /** `do_alloc` (299-339) of a record with these fields: the class
        lookup, then a buffer of that class; none when no class is large
        enough or no buffer is found, and then the store is as it was. The
        new record holds the caller's one reference and sits in the bucket
        of its deadline. */
    method DoAlloc(groupId: u32, key: seq<byte>, flags: u32, expireTime: u32, data: seq<byte>, ext: seq<byte>,
                   mallocOk: bool, now: u32) returns (n: Option<Handle>)
      requires Shaped() && |freeCount| == |cfg.maxSize|
      modifies this`items, this`next, this`freeCount, this`memUsed, this`lastClassId
      ensures Shaped()
      ensures var rec := NewRecord(cfg, groupId, key, flags, expireTime, data, ext, Bucket(now, expireTime));
        && (n.Some? <==> Fits(cfg, old(Mem()), rec.classId, mallocOk))
        && (n.None? ==> Mem() == old(Mem()))
        && (n.Some? ==> n.value == old(next) && Mem() == Insert(cfg, old(Mem()), rec, mallocOk).value)
      ensures Watches() == old(Watches()) && (old(WatchesOk()) ==> WatchesOk())
    {
      var c := GetClassId(ItemSize(cfg.header, |key|, |data|, |ext|));
      if c == 0 {
        return None;
      }
      var e := GetExpirationId(now, expireTime);
      var rec := Item(groupId, key, data, ext, flags, expireTime, e, c, 1, 0, 0, {});
      n := Place(rec, mallocOk);
    }

    /** `item_size_ok` (360-362): whether some class holds an item of
        these lengths; the lookup moves the class hint as `get_class_id`
        does. */
    method ItemSizeOk(keyLen: nat, dataLen: nat, extLen: nat) returns (ok: bool)
      requires Valid()
      modifies this`lastClassId
      ensures Valid()
      ensures var size := ItemSize(cfg.header, keyLen, dataLen, extLen);
        ok <==> 0 < size <= cfg.maxSize[cfg.classIdMax]
    {
      var c := GetClassId(ItemSize(cfg.header, keyLen, dataLen, extLen));
      ok := c != 0;
    }

    /** `alloc_item` (499-506): `do_alloc` for a caller, who receives the
        new record unlinked, holding its one reference. */
    method AllocItem(groupId: u32, key: seq<byte>, flags: u32, expireTime: u32, data: seq<byte>, ext: seq<byte>,
                     mallocOk: bool, now: u32) returns (n: Option<Handle>)
      requires Valid()
      modifies this`items, this`next, this`freeCount, this`memUsed, this`lastClassId
      ensures Valid() && Watches() == old(Watches())
      ensures var rec := NewRecord(cfg, groupId, key, flags, expireTime, data, ext, Bucket(now, expireTime));
        && (n.Some? <==> Fits(cfg, old(Mem()), rec.classId, mallocOk))
        && (n.None? ==> Mem() == old(Mem()))
        && (n.Some? ==> && n.value !in old(items) && items == old(items)[n.value := rec]
                        && !IsLinked(items, index, n.value) && Cached(Mem()) == Cached(old(Mem())))
    {
      ghost var s := Mem();
      NewRecordOk(cfg, groupId, key, flags, expireTime, data, ext, Bucket(now, expireTime), next);
      n := DoAlloc(groupId, key, flags, expireTime, data, ext, mallocOk, now);
      if n.Some? {
        InsertOk(cfg, s, NewRecord(cfg, groupId, key, flags, expireTime, data, ext, Bucket(now, expireTime)), mallocOk);
      }
    }

    // ---------------- the operations ----------------

    /** `get` (508-544) with the `do_get` overload that checks the
        deadline (454-480). */
    method Get(k: Key, watchId: u32, now: u32) returns (res: Fetched)
      requires Valid()
      modifies this`items, this`index, this`lists, this`freeCount, this`memUsed, watchMap.Values
      ensures Valid()
      ensures var r := CacheOps.Get(cfg, old(Mem()), k, watchId, old(watchMap.Keys), now);
        Mem() == r.s && res == r.out && Watches() == Told(old(Watches()), r.note)
    {
      if k !in index {
        GetMissing(cfg, Mem(), k, watchId, watchMap.Keys, now);
        return Fetched(None, 0, NotFound);
      }
      var x := index[k];
      if HasExpired(items[x], now) {
        res := GetExpired(k, watchId, now);
      } else if watchId != 0 && watchId !in watchMap {
        res := GetUnwatched(k, watchId, now);
      } else {
        res := GetHanded(k, watchId, now);
      }
    }

    /** The branch of `Get` that finds the item expired and unlinks it. */
    method GetExpired(k: Key, watchId: u32, now: u32) returns (res: Fetched)
      requires Valid() && k in index && index[k] in items && HasExpired(items[index[k]], now)
      modifies this`items, this`index, this`lists, this`freeCount, this`memUsed, watchMap.Values
      ensures Valid()
      ensures var r := CacheOps.Get(cfg, old(Mem()), k, watchId, old(watchMap.Keys), now);
        Mem() == r.s && res == r.out && Watches() == Told(old(Watches()), r.note)
    {
      ghost var s, live := Mem(), watchMap.Keys;
      GetOk(cfg, s, k, watchId, live, now);
      GetDead(cfg, s, k, watchId, live, now);
      DoUnlink(index[k], Expired);
      return Fetched(None, 0, NotFound);
    }

    /** The branch of `Get` whose requested watch is not registered. */
    method GetUnwatched(k: Key, watchId: u32, now: u32) returns (res: Fetched)
      requires Valid() && k in index && index[k] in items && !HasExpired(items[index[k]], now)
      requires watchId != 0 && watchId !in watchMap
      modifies this`items, this`index, this`lists, this`freeCount, this`memUsed
      ensures Valid()
      ensures var r := CacheOps.Get(cfg, old(Mem()), k, watchId, old(watchMap.Keys), now);
        Mem() == r.s && res == r.out && Watches() == Told(old(Watches()), r.note)
    {
      ghost var s, live := Mem(), watchMap.Keys;
      GetOk(cfg, s, k, watchId, live, now);
      GetUnwatchedBranch(cfg, s, k, watchId, live, now);
      var x := index[k];
      var it := items[x];
      DoRef(x);
      DoReleaseReference(x);
      return Fetched(None, Remaining(it, now), WatchNotFound);
    }

    /** The branch of `Get` that hands the item out, adding the watch to it. */
    method GetHanded(k: Key, watchId: u32, now: u32) returns (res: Fetched)
      requires Valid() && k in index && index[k] in items && !HasExpired(items[index[k]], now)
      requires watchId == 0 || watchId in watchMap
      modifies this`items
      ensures Valid()
      ensures var r := CacheOps.Get(cfg, old(Mem()), k, watchId, old(watchMap.Keys), now);
        Mem() == r.s && res == r.out && Watches() == Told(old(Watches()), r.note)
    {
      ghost var s, live := Mem(), watchMap.Keys;
      GetOk(cfg, s, k, watchId, live, now);
      GetHandedBranch(cfg, s, k, watchId, live, now);
      var x := index[k];
      var it := items[x];
      DoRef(x);
      AddWatchTo(x, watchId);
      return Fetched(Some(x), Remaining(it, now), Success);
    }

    /** `get_touch` (546-574) with `do_get_touch` (482-497): the item
        takes the new absolute deadline `expireTime` and is handed out
        with the watch added, or given back when the watch id is unknown. */
    method GetTouch(k: Key, watchId: u32, expireTime: u32) returns (res: Touched)
      requires Valid()
      modifies this`items, this`freeCount, this`memUsed
      ensures Valid()
      ensures var r := CacheOps.GetTouch(cfg, old(Mem()), k, watchId, old(watchMap.Keys), expireTime);
        Mem() == r.s && res == r.out && Watches() == Told(old(Watches()), r.note)
    {
      if k !in index {
        return Touched(None, NotFound);
      }
      if watchId != 0 && watchId !in watchMap {
        res := GetTouchRefused(k, watchId, expireTime);
      } else {
        res := GetTouchServed(k, watchId, expireTime);
      }
    }

    /** The branch of `GetTouch` whose watch id is unknown. */
    method GetTouchRefused(k: Key, watchId: u32, expireTime: u32) returns (res: Touched)
      requires Valid() && k in index && watchId != 0 && watchId !in watchMap
      modifies this`items, this`freeCount, this`memUsed
      ensures Valid()
      ensures var r := CacheOps.GetTouch(cfg, old(Mem()), k, watchId, old(watchMap.Keys), expireTime);
        Mem() == r.s && res == r.out && Watches() == Told(old(Watches()), r.note)
    {
      GetTouchRefusedBranch(cfg, Mem(), k, watchId, watchMap.Keys, expireTime);
      var x := index[k];
      DoTouch(x, expireTime);
      DoReleaseReference(x);
      return Touched(None, WatchNotFound);
    }

    /** The branch of `GetTouch` that hands the item out. */
    method GetTouchServed(k: Key, watchId: u32, expireTime: u32) returns (res: Touched)
      requires Valid() && k in index && (watchId == 0 || watchId in watchMap)
      modifies this`items
      ensures Valid()
      ensures var r := CacheOps.GetTouch(cfg, old(Mem()), k, watchId, old(watchMap.Keys), expireTime);
        Mem() == r.s && res == r.out && Watches() == Told(old(Watches()), r.note)
    {
      GetTouchServedBranch(cfg, Mem(), k, watchId, watchMap.Keys, expireTime);
      var x := index[k];
      DoTouch(x, expireTime);
      AddWatchTo(x, watchId);
      return Touched(Some(x), Success);
    }

    /** The `do_get` of a request whose key is cached, given back at once. */
    method TakeAndGiveBack(x: Handle)
      requires Valid() && x in items
      modifies this`items, this`freeCount, this`memUsed
      ensures Valid() && Mem() == old(Mem())
      ensures Watches() == old(Watches())
    {
      ghost var s := Mem();
      Regained(cfg, s, x);
      DoRef(x);
      DoReleaseReference(x);
    }

    /** The branch of `add` and `set` for a key not in the cache: the
        request record `h` takes the watch and is linked, unless the watch
        id is unknown. */
    method AdmitItem(h: Handle, watchId: u32, now: u32) returns (res: Stored)
      requires Valid() && h in items && !IsLinked(items, index, h) && KeyOf(items[h]) !in index
      modifies this`items, this`index, this`lists, this`lastCacheId
      ensures Valid()
      ensures var r := Admit(cfg, old(Mem()), h, watchId, old(watchMap.Keys), NextCacheId(old(lastCacheId)), now);
        Mem() == r.s && res == r.out && Watches() == Told(old(Watches()), r.note)
      ensures lastCacheId == if res.reason == Success then NextCacheId(old(lastCacheId)) else old(lastCacheId)
    {
      ghost var s, live, newId := Mem(), watchMap.Keys, NextCacheId(lastCacheId);
      AdmitBranch(cfg, s, h, watchId, live, newId, now);
      if watchId != 0 && watchId !in watchMap {
        return Stored(WatchNotFound, None);
      }
      AddWatchTo(h, watchId);
      DoLink(h, now);
      return Stored(Success, Some(lastCacheId));
    }

    /** The branch of `set` and `replace` for a cached key: `do_get`, the
        CAS and watch checks, `do_replace` and `add_watch` when both pass,
        and the `do_get` reference given back. */
    method OverwriteWith(h: Handle, watchId: u32, now: u32) returns (res: Stored)
      requires Valid() && h in items && !IsLinked(items, index, h) && KeyOf(items[h]) in index
      modifies this`items, this`index, this`lists, this`freeCount, this`memUsed, this`lastCacheId, watchMap.Values
      ensures Valid()
      ensures var r := Overwrite(cfg, old(Mem()), h, watchId, old(watchMap.Keys), NextCacheId(old(lastCacheId)), now);
        Mem() == r.s && res == r.out && Watches() == Told(old(Watches()), r.note)
      ensures lastCacheId == if res.reason == Success then NextCacheId(old(lastCacheId)) else old(lastCacheId)
    {
      var x := index[KeyOf(items[h])];
      if !Admits(items[h].cacheId, items[x]) || (watchId != 0 && watchId !in watchMap) {
        OverwriteRefusedBranch(cfg, Mem(), h, watchId, watchMap.Keys, NextCacheId(lastCacheId), now);
        TakeAndGiveBack(x);
        return Stored(if !Admits(items[h].cacheId, items[x]) then Mismatch else WatchNotFound, None);
      }
      res := OverwriteDone(h, watchId, now);
    }

    /** The admitted overwrite: `do_get`, `do_replace`, `add_watch` on the
        request record, and the `do_get` reference given back. */
    method OverwriteDone(h: Handle, watchId: u32, now: u32) returns (res: Stored)
      requires Valid() && h in items && !IsLinked(items, index, h) && KeyOf(items[h]) in index
      requires Admits(items[h].cacheId, items[index[KeyOf(items[h])]]) && (watchId == 0 || watchId in watchMap)
      modifies this`items, this`index, this`lists, this`freeCount, this`memUsed, this`lastCacheId, watchMap.Values
      ensures Valid()
      ensures var r := Overwrite(cfg, old(Mem()), h, watchId, old(watchMap.Keys), NextCacheId(old(lastCacheId)), now);
        Mem() == r.s && res == r.out && Watches() == Told(old(Watches()), r.note)
      ensures lastCacheId == NextCacheId(old(lastCacheId))
    {
      OverwriteBranch(cfg, Mem(), h, watchId, watchMap.Keys, NextCacheId(lastCacheId), now);
      var x := index[KeyOf(items[h])];
      SupersedeBy(x, h, watchId, now);
      return Stored(Success, Some(lastCacheId));
    }

    /** The store steps of an admitted overwrite of the record at `x` by
        the request record `h`. */
    method SupersedeBy(x: Handle, h: Handle, watchId: u32, now: u32)
      requires WatchesOk() && OverwriteReady(cfg, Mem(), x, h, watchId, NextCacheId(lastCacheId), now)
      modifies this`items, this`index, this`lists, this`freeCount, this`memUsed, this`lastCacheId, watchMap.Values
      ensures WatchesOk()
      ensures var t := Supersede(cfg, Ref(old(Mem()), x), x, h, NextCacheId(old(lastCacheId)), now);
        Mem() == Release(cfg, AddWatch(t, h, watchId), x)
      ensures lastCacheId == NextCacheId(old(lastCacheId))
      ensures Watches() == Told(old(Watches()), Announce(old(items[x]), DataUpdated))
      ensures Shaped() == old(Shaped())
    {
      ghost var note := Announce(items[x], DataUpdated);
      DoRef(x);
      assert Announce(items[x], DataUpdated) == note;
      DoReplace(x, h, now);
      AddWatchTo(h, watchId);
      DoReleaseReference(x);
    }

    /** `add` (756-787): a cached key fails with EXISTS. */
    method Add(h: Handle, watchId: u32, now: u32) returns (res: Stored)
      requires Valid() && h in items && !IsLinked(items, index, h)
      modifies this`items, this`index, this`lists, this`freeCount, this`memUsed, this`lastCacheId
      ensures Valid()
      ensures var r := CacheOps.Add(cfg, old(Mem()), h, watchId, old(watchMap.Keys), NextCacheId(old(lastCacheId)), now);
        Mem() == r.s && res == r.out && Watches() == Told(old(Watches()), r.note)
      ensures lastCacheId == if res.reason == Success then NextCacheId(old(lastCacheId)) else old(lastCacheId)
    {
      ghost var s, live, newId := Mem(), watchMap.Keys, NextCacheId(lastCacheId);
      var k := KeyOf(items[h]);
      if k in index {
        AddExistsBranch(cfg, s, h, watchId, live, newId, now);
        TakeAndGiveBack(index[k]);
        return Stored(Exists, None);
      }
      AdmitBranch(cfg, s, h, watchId, live, newId, now);
      res := AdmitItem(h, watchId, now);
    }

    /** `set` (789-840). */
    method Set(h: Handle, watchId: u32, now: u32) returns (res: Stored)
      requires Valid() && h in items && !IsLinked(items, index, h)
      modifies this`items, this`index, this`lists, this`freeCount, this`memUsed, this`lastCacheId, watchMap.Values
      ensures Valid()
      ensures var r := CacheOps.Set(cfg, old(Mem()), h, watchId, old(watchMap.Keys), NextCacheId(old(lastCacheId)), now);
        Mem() == r.s && res == r.out && Watches() == Told(old(Watches()), r.note)
      ensures lastCacheId == if res.reason == Success then NextCacheId(old(lastCacheId)) else old(lastCacheId)
    {
      ghost var s, live, newId := Mem(), watchMap.Keys, NextCacheId(lastCacheId);
      if KeyOf(items[h]) in index {
        SetReplaceCached(cfg, s, h, watchId, live, newId, now);
        res := OverwriteWith(h, watchId, now);
      } else {
        AdmitBranch(cfg, s, h, watchId, live, newId, now);
        res := AdmitItem(h, watchId, now);
      }
    }

    /** `replace` (842-879): a key not in the cache fails with NOT_FOUND. */
    method Replace(h: Handle, watchId: u32, now: u32) returns (res: Stored)
      requires Valid() && h in items && !IsLinked(items, index, h)
      modifies this`items, this`index, this`lists, this`freeCount, this`memUsed, this`lastCacheId, watchMap.Values
      ensures Valid()
      ensures var r := CacheOps.Replace(cfg, old(Mem()), h, watchId, old(watchMap.Keys), NextCacheId(old(lastCacheId)), now);
        Mem() == r.s && res == r.out && Watches() == Told(old(Watches()), r.note)
      ensures lastCacheId == if res.reason == Success then NextCacheId(old(lastCacheId)) else old(lastCacheId)
    {
      ghost var s, live, newId := Mem(), watchMap.Keys, NextCacheId(lastCacheId);
      if KeyOf(items[h]) !in index {
        return Stored(NotFound, None);
      }
      SetReplaceCached(cfg, s, h, watchId, live, newId, now);
      res := OverwriteWith(h, watchId, now);
    }

    /** `append` (881-930) when `front` is false and `prepend` (932-981)
        when it is true: the cached record is joined with the request
        record `h` in a newly allocated record that supersedes it. */
    method Extend(h: Handle, front: bool, watchId: u32, mallocOk: bool, now: u32) returns (res: Stored)
      requires Valid() && h in items && !IsLinked(items, index, h)
      modifies this`items, this`index, this`lists, this`freeCount, this`memUsed, this`next, this`lastClassId,
        this`lastCacheId, watchMap.Values
      ensures Valid()
      ensures var r := CacheOps.Extend(cfg, old(Mem()), h, front, watchId, old(watchMap.Keys), mallocOk,
                                       NextCacheId(old(lastCacheId)), now);
        Mem() == r.s && res == r.out && Watches() == Told(old(Watches()), r.note)
      ensures lastCacheId == if res.reason == Success then NextCacheId(old(lastCacheId)) else old(lastCacheId)
    {
      var k := KeyOf(items[h]);
      if k !in index {
        return Stored(NotFound, None);
      }
      var x := index[k];
      if !Admits(items[h].cacheId, items[x]) {
        ExtendMismatchBranch(cfg, Mem(), h, front, watchId, watchMap.Keys, mallocOk, NextCacheId(lastCacheId), now);
        DoRef(x);
        return Stored(Mismatch, None);
      }
      res := ExtendAdmit(h, front, watchId, mallocOk, now);
    }

    /** The admitted `append` or `prepend`: `do_get`, the allocation of the
        joined record, and OUT_OF_MEMORY when no buffer is found. */
    method ExtendAdmit(h: Handle, front: bool, watchId: u32, mallocOk: bool, now: u32) returns (res: Stored)
      requires Valid() && h in items && !IsLinked(items, index, h) && KeyOf(items[h]) in index
      requires Admits(items[h].cacheId, items[index[KeyOf(items[h])]])
      modifies this`items, this`index, this`lists, this`freeCount, this`memUsed, this`next, this`lastClassId,
        this`lastCacheId, watchMap.Values
      ensures Valid()
      ensures var r := CacheOps.Extend(cfg, old(Mem()), h, front, watchId, old(watchMap.Keys), mallocOk,
                                       NextCacheId(old(lastCacheId)), now);
        Mem() == r.s && res == r.out && Watches() == Told(old(Watches()), r.note)
      ensures lastCacheId == if res.reason == Success then NextCacheId(old(lastCacheId)) else old(lastCacheId)
    {
      ghost var s, live, newId := Mem(), watchMap.Keys, NextCacheId(lastCacheId);
      ExtendAdmitted(cfg, s, h, front, watchId, live, mallocOk, newId, now);
      var x := index[KeyOf(items[h])];
      var it, cur := items[h], items[x];
      ghost var rec := Joined(cfg, it, cur, front, now);
      DoRef(x);
      var n := DoAlloc(it.groupId, it.key, cur.flags, cur.expireTime, if front then it.data + cur.data else cur.data + it.data,
                       cur.ext, mallocOk, now);
      if n.None? {
        assert !Fits(cfg, Ref(s, x), rec.classId, mallocOk);
        assert CacheOps.Extend(cfg, s, h, front, watchId, live, mallocOk, newId, now) == Done(s, Quiet, Stored(OutOfMemory, None));
        assert Mem() == Ref(s, x);
        DoReleaseReference(x);
        return Stored(OutOfMemory, None);
      }
      assert lastCacheId == old(lastCacheId);
      res := ExtendPlaced(s, live, newId, h, x, n.value, front, watchId, mallocOk, now);
    }

    /** The admitted `append` or `prepend` begun on the store `s`, once
        the joined record is allocated at `n`: WATCH_NOT_FOUND for an
        unknown watch id, else the joint. */
    method ExtendPlaced(ghost s: MemState, ghost live: set<u32>, ghost newId: u64, h: Handle, x: Handle, n: Handle,
                        front: bool, watchId: u32, ghost mallocOk: bool, now: u32) returns (res: Stored)
      requires WatchesOk() && Shaped() && Ok(cfg, s) && h in s.items && !IsLinked(s.items, s.index, h)
      requires live == watchMap.Keys && newId == NextCacheId(lastCacheId)
      requires KeyOf(s.items[h]) in s.index && x == s.index[KeyOf(s.items[h])]
      requires var cur := s.items[x]; var rec := Joined(cfg, s.items[h], cur, front, now);
        && Admits(s.items[h].cacheId, cur) && Fits(cfg, s, rec.classId, mallocOk)
        && n == s.next && x in s.items && Mem() == Insert(cfg, Ref(s, x), rec, mallocOk).value
      modifies this`items, this`index, this`lists, this`freeCount, this`memUsed, this`lastCacheId, watchMap.Values
      ensures Valid()
      ensures var r := CacheOps.Extend(cfg, s, h, front, watchId, live, mallocOk, newId, now);
        Mem() == r.s && res == r.out && Watches() == Told(old(Watches()), r.note)
      ensures lastCacheId == if res.reason == Success then NextCacheId(old(lastCacheId)) else old(lastCacheId)
    {
      if watchId != 0 && watchId !in watchMap {
        res := ExtendUnwatched(s, live, newId, h, x, n, front, watchId, mallocOk, now);
      } else {
        res := ExtendWatched(s, live, newId, h, x, n, front, watchId, mallocOk, now);
      }
    }

    /** The admitted `append` or `prepend` naming an unknown watch id
        (WATCH_NOT_FOUND), once the joined record is allocated at `n`. */
    method ExtendUnwatched(ghost s: MemState, ghost live: set<u32>, ghost newId: u64, h: Handle, x: Handle, n: Handle,
                        front: bool, watchId: u32, ghost mallocOk: bool, now: u32) returns (res: Stored)
      requires WatchesOk() && Shaped() && Ok(cfg, s) && h in s.items && !IsLinked(s.items, s.index, h)
      requires live == watchMap.Keys && newId == NextCacheId(lastCacheId) && watchId != 0 && watchId !in live
      requires KeyOf(s.items[h]) in s.index && x == s.index[KeyOf(s.items[h])]
      requires var cur := s.items[x]; var rec := Joined(cfg, s.items[h], cur, front, now);
        && Admits(s.items[h].cacheId, cur) && Fits(cfg, s, rec.classId, mallocOk)
        && n == s.next && x in s.items && Mem() == Insert(cfg, Ref(s, x), rec, mallocOk).value
      modifies this`items, this`index, this`lists, this`freeCount, this`memUsed, this`lastCacheId, watchMap.Values
      ensures Valid()
      ensures var r := CacheOps.Extend(cfg, s, h, front, watchId, live, mallocOk, newId, now);
        Mem() == r.s && res == r.out && Watches() == Told(old(Watches()), r.note)
      ensures lastCacheId == old(lastCacheId) && res.reason == WatchNotFound
    {
      ExtendFitted(cfg, s, h, front, watchId, live, mallocOk, newId, now);
      ExtendDiscard(Ref(s, x), x, n, Joined(cfg, s.items[h], s.items[x], front, now), mallocOk);
      return Stored(WatchNotFound, None);
    }

    /** The admitted `append` or `prepend` with no watch or a known one,
        once the joined record is allocated at `n`: the joint. */
    method ExtendWatched(ghost s: MemState, ghost live: set<u32>, ghost newId: u64, h: Handle, x: Handle, n: Handle,
                        front: bool, watchId: u32, ghost mallocOk: bool, now: u32) returns (res: Stored)
      requires WatchesOk() && Shaped() && Ok(cfg, s) && h in s.items && !IsLinked(s.items, s.index, h)
      requires live == watchMap.Keys && newId == NextCacheId(lastCacheId) && (watchId == 0 || watchId in live)
      requires KeyOf(s.items[h]) in s.index && x == s.index[KeyOf(s.items[h])]
      requires var cur := s.items[x]; var rec := Joined(cfg, s.items[h], cur, front, now);
        && Admits(s.items[h].cacheId, cur) && Fits(cfg, s, rec.classId, mallocOk)
        && n == s.next && x in s.items && Mem() == Insert(cfg, Ref(s, x), rec, mallocOk).value
      modifies this`items, this`index, this`lists, this`freeCount, this`memUsed, this`lastCacheId, watchMap.Values
      ensures Valid()
      ensures var r := CacheOps.Extend(cfg, s, h, front, watchId, live, mallocOk, newId, now);
        Mem() == r.s && res == r.out && Watches() == Told(old(Watches()), r.note)
      ensures lastCacheId == newId && res.reason == Success
    {
      ExtendFitted(cfg, s, h, front, watchId, live, mallocOk, newId, now);
      ExtendGraft(Ref(s, x), x, n, h, Joined(cfg, s.items[h], s.items[x], front, now), front, watchId, mallocOk, now);
      return Stored(Success, Some(lastCacheId));
    }

    /** The WATCH_NOT_FOUND path of `append` and `prepend` once the joined
        record `rec` is allocated at `n` on the store `p`: both references
        are given back, which frees the new record. */
    method ExtendDiscard(ghost p: MemState, x: Handle, n: Handle, ghost rec: Item, ghost mallocOk: bool)
      requires Beside(cfg, p, x, rec, mallocOk) && n == p.next && Mem() == Insert(cfg, p, rec, mallocOk).value
      modifies this`items, this`freeCount, this`memUsed
      ensures Mem() == Discard(cfg, p, x, rec, mallocOk)
      ensures Watches() == old(Watches()) && (old(WatchesOk()) ==> WatchesOk())
      ensures Shaped() == old(Shaped())
    {
      DiscardSteps(cfg, p, x, rec, mallocOk);
      DoReleaseReference(n);
      DoReleaseReference(x);
    }

    /** The success path of `append` and `prepend` once the joined record
        `rec` is allocated at `n` on the store `p`: the joint, then both
        references given back. */
    method ExtendGraft(ghost p: MemState, x: Handle, n: Handle, h: Handle, ghost rec: Item, front: bool, watchId: u32,
                       ghost mallocOk: bool, now: u32)
      requires WatchesOk() && Beside(cfg, p, x, rec, mallocOk) && p.items[x].refCount >= 2 && h in p.items && h != x
      requires n == p.next && Mem() == Insert(cfg, p, rec, mallocOk).value
      modifies this`items, this`index, this`lists, this`freeCount, this`memUsed, this`lastCacheId, watchMap.Values
      ensures WatchesOk()
      ensures Mem() == Graft(cfg, p, x, h, rec, front, watchId, mallocOk, NextCacheId(old(lastCacheId)), now)
      ensures lastCacheId == NextCacheId(old(lastCacheId))
      ensures Watches() == Told(old(Watches()), Announce(p.items[x], DataUpdated))
      ensures Shaped() == old(Shaped())
    {
      GraftSteps(cfg, p, x, h, rec, front, watchId, mallocOk, NextCacheId(lastCacheId), now);
      DoJoint(x, n, h, front, watchId, now);
      DoReleaseReference(n);
      DoReleaseReference(x);
    }

    /** The `do_replace` of the record at `x` by the new record `n` and
        `add_watch` on the request record `h`: the watch goes on first for
        `prepend` (`front`), last for `append`. */
    method DoJoint(x: Handle, n: Handle, h: Handle, front: bool, watchId: u32, now: u32)
      requires WatchesOk() && Holds(cfg, Mem(), x) && items[x].refCount >= 1 && items[x].expirationId < |lists|
      requires n in items && n != x && items[n].expirationId < |lists| && h in items && h != x && h != n
      modifies this`items, this`index, this`lists, this`freeCount, this`memUsed, this`lastCacheId, watchMap.Values
      ensures WatchesOk()
      ensures Mem() == Joint(cfg, old(Mem()), x, n, h, front, watchId, NextCacheId(old(lastCacheId)), now)
      ensures lastCacheId == NextCacheId(old(lastCacheId))
      ensures Watches() == Told(old(Watches()), Announce(old(items[x]), DataUpdated))
      ensures Shaped() == old(Shaped())
    {
      SupersedeHeld(cfg, Mem(), x, n, h, NextCacheId(lastCacheId), now);
      if front {
        AddWatchTo(h, watchId);
        DoReplace(x, n, now);
      } else {
        DoReplace(x, n, now);
        AddWatchTo(h, watchId);
      }
    }

    /** `remove` (983-1007): `do_get`, `do_unlink` with DELETED when the
        CAS token admits the record, and the reference given back. */
    method Remove(k: Key, cas: u64) returns (res: Reason)
      requires Valid()
      modifies this`items, this`index, this`lists, this`freeCount, this`memUsed, watchMap.Values
      ensures Valid()
      ensures var r := CacheOps.Remove(cfg, old(Mem()), k, cas);
        Mem() == r.s && res == r.out && Watches() == Told(old(Watches()), r.note)
    {
      ghost var s := Mem();
      if k !in index {
        return NotFound;
      }
      var x := index[k];
      if !Admits(cas, items[x]) {
        RemoveRefused(cfg, s, k, cas);
        TakeAndGiveBack(x);
        return Mismatch;
      }
      RemoveBranch(cfg, s, k, cas);
      DoRef(x);
      DoUnlink(x, Deleted);
      DoReleaseReference(x);
      return Success;
    }

    /** `delta` (1010-1082): `incr` when `incr` is true, `decr` otherwise;
        `cas` is the cache id passed in. */
    method Delta(k: Key, incr: bool, d: int, cas: u64, mallocOk: bool, now: u32) returns (res: Counted)
      requires Valid()
      modifies this`items, this`index, this`lists, this`freeCount, this`memUsed, this`next, this`lastClassId,
        this`lastCacheId, watchMap.Values
      ensures Valid()
      ensures var r := CacheOps.Delta(cfg, old(Mem()), k, incr, d, cas, mallocOk, NextCacheId(old(lastCacheId)), now);
        Mem() == r.s && res == r.out && Watches() == Told(old(Watches()), r.note)
      ensures lastCacheId == if res.reason == Success then NextCacheId(old(lastCacheId)) else old(lastCacheId)
    {
      if k !in index {
        return Counted(NotFound, 0, 0);
      }
      var x := index[k];
      if !Admits(cas, items[x]) {
        DeltaMismatchBranch(cfg, Mem(), k, incr, d, cas, mallocOk, NextCacheId(lastCacheId), now);
        TakeAndGiveBack(x);
        return Counted(Mismatch, 0, 0);
      }
      var v := Counter(items[x].data, incr, d);
      var text := FormatInt(v);
      if |text| != |items[x].data| {
        res := DeltaResize(k, incr, d, cas, mallocOk, now, v, text);
      } else {
        res := DeltaInPlace(k, incr, d, cas, mallocOk, now, v, text);
      }
    }

    /** The admitted `delta` whose text `text` of the value `v` keeps its
        length: `do_get`, the text rewritten in the same record under a new
        cache id, and the reference given back. */
    method DeltaInPlace(k: Key, incr: bool, d: int, cas: u64, ghost mallocOk: bool, now: u32, v: int, text: seq<byte>)
      returns (res: Counted)
      requires Valid() && k in index && index[k] in items && Admits(cas, items[index[k]])
      requires v == Counter(items[index[k]].data, incr, d) && text == FormatInt(v) && |text| == |items[index[k]].data|
      modifies this`items, this`freeCount, this`memUsed, this`lastCacheId
      ensures Valid()
      ensures var r := CacheOps.Delta(cfg, old(Mem()), k, incr, d, cas, mallocOk, NextCacheId(old(lastCacheId)), now);
        Mem() == r.s && res == r.out && Watches() == Told(old(Watches()), r.note)
      ensures lastCacheId == NextCacheId(old(lastCacheId)) && res.reason == Success
    {
      DeltaInPlaceBranch(cfg, Mem(), k, incr, d, cas, mallocOk, NextCacheId(lastCacheId), now);
      var id := RecountItem(index[k], text, now);
      return Counted(Success, id, v);
    }

    /** The store steps of the in-place `delta` on the record at `x`
        (1054-1066): `do_get`, the new cache id, update time and text, and
        the reference given back; no watcher is told. */
    method RecountItem(x: Handle, text: seq<byte>, now: u32) returns (id: u64)
      requires x in items
      requires var s1 := Ref(Mem(), x);
        var u := Rewrite(s1, x, s1.items[x].(data := text, cacheId := NextCacheId(lastCacheId), lastUpdateTime := now));
        Holds(cfg, u, x) && u.items[x].refCount >= 1
      modifies this`items, this`freeCount, this`memUsed, this`lastCacheId
      ensures id == NextCacheId(old(lastCacheId)) && lastCacheId == id
      ensures var s1 := Ref(old(Mem()), x);
        Mem() == Release(cfg, Rewrite(s1, x, s1.items[x].(data := text, cacheId := id, lastUpdateTime := now)), x)
      ensures Watches() == old(Watches()) && (old(WatchesOk()) ==> WatchesOk())
      ensures Shaped() == old(Shaped())
    {
      DoRef(x);
      id := GetCacheId();
      PutItem(x, items[x].(data := text, cacheId := id, lastUpdateTime := now));
      DoReleaseReference(x);
    }

    /** The admitted `delta` whose text `text` of the value `v` changes
        length: `do_get`, the allocation of a new record, and OUT_OF_MEMORY
        when no buffer is found. */
    method DeltaResize(k: Key, incr: bool, d: int, cas: u64, mallocOk: bool, now: u32, v: int, text: seq<byte>)
      returns (res: Counted)
      requires Valid() && k in index && index[k] in items && Admits(cas, items[index[k]])
      requires v == Counter(items[index[k]].data, incr, d) && text == FormatInt(v) && |text| != |items[index[k]].data|
      modifies this`items, this`index, this`lists, this`freeCount, this`memUsed, this`next, this`lastClassId,
        this`lastCacheId, watchMap.Values
      ensures Valid()
      ensures var r := CacheOps.Delta(cfg, old(Mem()), k, incr, d, cas, mallocOk, NextCacheId(old(lastCacheId)), now);
        Mem() == r.s && res == r.out && Watches() == Told(old(Watches()), r.note)
      ensures lastCacheId == if res.reason == Success then NextCacheId(old(lastCacheId)) else old(lastCacheId)
    {
      ghost var s, newId := Mem(), NextCacheId(lastCacheId);
      DeltaResized(cfg, s, k, incr, d, cas, mallocOk, newId, now);
      var x := index[k];
      var cur := items[x];
      ghost var rec := Recounted(cfg, cur, text, now);
      DoRef(x);
      var n := DoAlloc(cur.groupId, cur.key, cur.flags, cur.expireTime, text, cur.ext, mallocOk, now);
      if n.None? {
        assert !Fits(cfg, Ref(s, x), rec.classId, mallocOk);
        assert CacheOps.Delta(cfg, s, k, incr, d, cas, mallocOk, newId, now) == Done(s, Quiet, Counted(OutOfMemory, cas, v));
        DoReleaseReference(x);
        assert Mem() == s;
        return Counted(OutOfMemory, cas, v);
      }
      res := DeltaPlaced(s, newId, k, x, n.value, incr, d, cas, mallocOk, now, v);
    }

    /** The admitted `delta` begun on the store `s`, once the record with
        the new text is allocated at `n`: `do_replace`, then both
        references given back. */
    method DeltaPlaced(ghost s: MemState, ghost newId: u64, k: Key, x: Handle, n: Handle, incr: bool, d: int, cas: u64,
                       ghost mallocOk: bool, now: u32, v: int) returns (res: Counted)
      requires WatchesOk() && Shaped() && Ok(cfg, s) && k in s.index && x == s.index[k] && x in s.items
      requires newId == NextCacheId(lastCacheId)
      requires var cur := s.items[x]; var rec := Recounted(cfg, cur, FormatInt(v), now);
        && v == Counter(cur.data, incr, d) && Admits(cas, cur) && |FormatInt(v)| != |cur.data|
        && Fits(cfg, s, rec.classId, mallocOk) && n == s.next && Mem() == Insert(cfg, Ref(s, x), rec, mallocOk).value
      modifies this`items, this`index, this`lists, this`freeCount, this`memUsed, this`lastCacheId, watchMap.Values
      ensures Valid()
      ensures var r := CacheOps.Delta(cfg, s, k, incr, d, cas, mallocOk, newId, now);
        Mem() == r.s && res == r.out && Watches() == Told(old(Watches()), r.note)
      ensures lastCacheId == newId && res.reason == Success
    {
      DeltaFitted(cfg, s, k, incr, d, cas, mallocOk, NextCacheId(lastCacheId), now);
      DeltaRenew(Ref(s, x), x, n, Recounted(cfg, s.items[x], FormatInt(v), now), mallocOk, now);
      return Counted(Success, lastCacheId, v);
    }

    /** The reallocating path of `delta` once the record `rec` is allocated
        at `n` on the store `p`: `do_replace`, then both references given
        back. */
    method DeltaRenew(ghost p: MemState, x: Handle, n: Handle, ghost rec: Item, ghost mallocOk: bool, now: u32)
      requires WatchesOk() && Beside(cfg, p, x, rec, mallocOk) && p.items[x].refCount >= 2
      requires n == p.next && Mem() == Insert(cfg, p, rec, mallocOk).value
      modifies this`items, this`index, this`lists, this`freeCount, this`memUsed, this`lastCacheId, watchMap.Values
      ensures WatchesOk()
      ensures Mem() == Renew(cfg, p, x, rec, mallocOk, NextCacheId(old(lastCacheId)), now)
      ensures lastCacheId == NextCacheId(old(lastCacheId))
      ensures Watches() == Told(old(Watches()), Announce(p.items[x], DataUpdated))
      ensures Shaped() == old(Shaped())
    {
      RenewSteps(cfg, p, x, rec, mallocOk, NextCacheId(lastCacheId), now);
      DoReplace(x, n, now);
      DoReleaseReference(n);
      DoReleaseReference(x);
    }

    /** `update_flags` (605-635): the admitted record takes the flags, its
        watches are told BASE_INFO_UPDATED (the ids of watches gone are
        erased), then it takes a new cache id and update time. */
    method UpdateFlags(k: Key, cas: u64, flags: u32, now: u32) returns (res: Updated)
      requires Valid()
      modifies this`items, this`freeCount, this`memUsed, this`lastCacheId, watchMap.Values
      ensures Valid()
      ensures var r := CacheOps.UpdateFlags(cfg, old(Mem()), k, cas, flags, old(watchMap.Keys), NextCacheId(old(lastCacheId)), now);
        Mem() == r.s && res == r.out && Watches() == Told(old(Watches()), r.note)
      ensures lastCacheId == if res.ok then NextCacheId(old(lastCacheId)) else old(lastCacheId)
    {
      ghost var s, live, newId := Mem(), watchMap.Keys, NextCacheId(lastCacheId);
      if k !in index {
        return Updated(false, 0);
      }
      var x := index[k];
      if !Admits(cas, items[x]) {
        UpdateFlagsLeakBranch(cfg, s, k, cas, flags, live, newId, now);
        DoRef(x);
        return Updated(false, items[x].cacheId);
      }
      UpdateFlagsBranch(cfg, s, k, cas, flags, live, newId, now);
      var id := ReflagItem(x, flags, now);
      return Updated(true, id);
    }

    /** The store steps of an admitted `update_flags` on the record at `x`:
        `do_get`, the flags, the notification, the new cache id and update
        time, and the reference given back. */
    method ReflagItem(x: Handle, flags: u32, now: u32) returns (id: u64)
      requires WatchesOk() && ReflagReady(cfg, Mem(), x, flags, watchMap.Keys, NextCacheId(lastCacheId), now)
      modifies this`items, this`freeCount, this`memUsed, this`lastCacheId, watchMap.Values
      ensures WatchesOk()
      ensures id == NextCacheId(old(lastCacheId)) && lastCacheId == id
      ensures Mem() == Release(cfg, Reflag(old(Mem()), x, flags, old(watchMap.Keys), id, now), x)
      ensures Watches() == Told(old(Watches()), Announce(old(items[x]), BaseInfoUpdated))
      ensures Shaped() == old(Shaped())
    {
      var it := items[x];
      DoRef(x);
      var kept := NotifyItem(it, BaseInfoUpdated);
      id := GetCacheId();
      PutItem(x, items[x].(flags := flags, watchers := kept, cacheId := id, lastUpdateTime := now));
      DoReleaseReference(x);
    }

    /** `update_expiration` (637-669): the admitted record moves to the
        front of the bucket of its new deadline when that differs, and
        takes the deadline; its cache id stays. */
    method UpdateExpiration(k: Key, cas: u64, expireTime: u32, now: u32) returns (res: Updated)
      requires Valid()
      modifies this`items, this`lists, this`freeCount, this`memUsed
      ensures Valid()
      ensures var r := CacheOps.UpdateExpiration(cfg, old(Mem()), k, cas, expireTime, now);
        Mem() == r.s && res == r.out && Watches() == Told(old(Watches()), r.note)
    {
      ghost var s := Mem();
      if k !in index {
        return Updated(false, 0);
      }
      var x := index[k];
      if !Admits(cas, items[x]) {
        UpdateExpirationLeakBranch(cfg, s, k, cas, expireTime, now);
        DoRef(x);
        return Updated(false, U64 - 1);
      }
      UpdateExpirationBranch(cfg, s, k, cas, expireTime, now);
      var id := items[x].cacheId;
      RedateItem(x, expireTime, now);
      return Updated(true, id);
    }

    /** The store steps of an admitted `update_expiration` on the record at
        `x`: `do_get`, the bucket move when the bucket changes, the new
        deadline, and the reference given back. */
    method RedateItem(x: Handle, expireTime: u32, now: u32)
      requires RedateReady(cfg, Mem(), x, Bucket(now, expireTime), expireTime)
      modifies this`items, this`lists, this`freeCount, this`memUsed
      ensures Mem() == Redated(cfg, old(Mem()), x, Bucket(now, expireTime), expireTime)
      ensures Watches() == old(Watches()) && (old(WatchesOk()) ==> WatchesOk())
      ensures Shaped() == old(Shaped())
    {
      DoRef(x);
      var e := GetExpirationId(now, expireTime);
      if e != items[x].expirationId {
        MoveItem(x, e);
      }
      PutItem(x, items[x].(expireTime := expireTime));
      DoReleaseReference(x);
    }

    /** `release_reference` (671-675): the caller gives back a reference
        it holds. */
    method ReleaseReference(h: Handle)
      requires Valid() && h in items && (IsLinked(items, index, h) ==> items[h].refCount >= 2)
      modifies this`items, this`freeCount, this`memUsed
      ensures Valid()
      ensures Holds(cfg, old(Mem()), h) && Mem() == Release(cfg, old(Mem()), h) && Watches() == old(Watches())
    {
      ReleaseOk(cfg, Mem(), h);
      DoReleaseReference(h);
    }
  

    // ---------------- the watch registry ----------------

    /** `get_watch_id` (1105-1115): up to 100 probes for an id no watch
        uses; 0 when all 100 are taken. */
    method GetWatchId() returns (id: u32)
      modifies this`lastWatchId
      ensures (id, lastWatchId) == Probe(watchMap.Keys, old(lastWatchId), PROBES)
      ensures id != 0 ==> id !in watchMap
    {
      var i := 0;
      while i < PROBES
        invariant 0 <= i <= PROBES
        invariant Probe(watchMap.Keys, old(lastWatchId), PROBES) == Probe(watchMap.Keys, lastWatchId, PROBES - i)
      {
        if lastWatchId == U32 - 1 {
          lastWatchId := 1;
        } else {
          lastWatchId := lastWatchId + 1;
        }
        if lastWatchId !in watchMap {
          return lastWatchId;
        }
        i := i + 1;
      }
      return 0;
    }

    /** `is_valid_watch_id` (1117-1119). */
    predicate IsValidWatchId(watchId: u32)
      reads this`watchMap, watchMap.Values
      ensures IsValidWatchId(watchId) <==> watchId in Watches()
    {
      watchId in watchMap
    }

    /** `create_watch` (1121-1131): a fresh watch with deadline `expire`
        under the id `get_watch_id` finds; none when it finds 0, which
        cannot happen while fewer than 100 watches exist. */
    method CreateWatch(expire: u32) returns (id: u32)
      requires WatchesOk()
      modifies this`watchMap, this`lastWatchId
      ensures WatchesOk()
      ensures (id, lastWatchId) == Probe(old(watchMap.Keys), old(lastWatchId), PROBES)
      ensures |old(watchMap)| < PROBES ==> id != 0
      ensures id == 0 ==> Watches() == old(Watches())
      ensures id != 0 ==> id !in old(Watches()) && Watches() == old(Watches())[id := NewWatch(expire)]
    {
      if |watchMap| < PROBES {
        ProbeFinds(watchMap.Keys, lastWatchId);
      }
      label Probing:
      id := GetWatchId();
      StatesUnchanged@Probing(watchMap);
      if id != 0 {
        var wm := Enrol(watchMap, id, expire);
        label Enrolled:
        watchMap := wm;
        StatesUnchanged@Enrolled(wm);
      }
    }

    /** `check_watch_and_set_callback` (1133-1148): false for an unknown
        id; otherwise the watch's `check_and_set_callback` with the
        deadline `expire`. */
    method CheckWatchAndSetCallback(sp: Option<SinkId>, watchId: u32, ack: u32, expire: u32,
                                    q0: u32, ids: seq<u64>, types: seq<NotifyType>)
      returns (ok: bool, q: u32, ids': seq<u64>, types': seq<NotifyType>)
      requires Valid()
      modifies watchMap.Values
      ensures Valid()
      ensures ok <==> watchId in old(Watches())
      ensures !ok ==> Watches() == old(Watches()) && (q, ids', types') == (q0, ids, types)
      ensures ok ==> var r := SetCallback(old(Watches())[watchId], sp, ack, expire);
        && Watches() == old(Watches())[watchId := r.next]
        && q == r.out.value.sequence
        && ids' == ids + r.out.value.ids
        && types' == types + r.out.value.types
    {
      if watchId !in watchMap {
        return false, q0, ids, types;
      }
      q, ids', types' := SetFiled(watchMap, watchId, sp, ack, expire, ids, types);
      ok := true;
    }

    /** `check_watch_and_clear_callback` (1150-1162): false for an unknown
        id; otherwise the watch's `check_and_clear_callback`. */
    method CheckWatchAndClearCallback(sp: Option<SinkId>, watchId: u32,
                                      q0: u32, ids: seq<u64>, types: seq<NotifyType>)
      returns (ok: bool, q: u32, ids': seq<u64>, types': seq<NotifyType>)
      requires Valid()
      modifies watchMap.Values
      ensures Valid()
      ensures ok <==> watchId in old(Watches())
      ensures !ok ==> Watches() == old(Watches()) && (q, ids', types') == (q0, ids, types)
      ensures ok ==> var r := ClearCallback(old(Watches())[watchId], sp);
        && Watches() == old(Watches())[watchId := r.next]
        && q == (if r.out.Some? then r.out.value.sequence else q0)
        && ids' == ids + (if r.out.Some? then r.out.value.ids else [])
        && types' == types + (if r.out.Some? then r.out.value.types else [])
    {
      if watchId !in watchMap {
        return false, q0, ids, types;
      }
      q, ids', types' := ClearFiled(watchMap, watchId, sp, q0, ids, types);
      ok := true;
    }

    /** `expire_watchs` (1178-1188): every watch whose deadline is before
        `now` is dropped. */
    method ExpireWatchs(now: u32)
      requires WatchesOk()
      modifies this`watchMap
      ensures WatchesOk()
      ensures Watches() == Unexpired(old(Watches()), now) && watchMap.Values <= old(watchMap.Values)
    {
      var wm := DropExpired(watchMap, now);
      label Dropped:
      watchMap := wm;
      StatesUnchanged@Dropped(wm);
    }

    // ---------------- the sweeps ----------------

    /** One visit of the `expire_items` scan of bucket `i` (277-293) to
        the record `h` at the head of the snapshot `hs`: unlinked with
        EXPIRED when its deadline has passed, else moved to the front of
        the bucket its remaining lifetime reaches. */
    method ExpireVisit(i: nat, now: u32, ghost hs: seq<Handle>, h: Handle)
      requires WatchesOk() && Ok(cfg, Mem()) && i < SWEPT && Scannable(Mem(), hs) && hs != [] && h == hs[0]
      modifies this`items, this`index, this`lists, this`freeCount, this`memUsed, watchMap.Values
      ensures WatchesOk()
      ensures var r := ExpireHead(cfg, old(Mem()), i, now, hs);
        Mem() == r.s && Watches() == ToldAll(old(Watches()), r.notes)
      ensures Shaped() == old(Shaped())
    {
      if items[h].expireTime <= now {
        ExpireDrop(i, now, hs, h);
      } else {
        ExpireHeadMoves(cfg, Mem(), i, now, hs);
        ToldNothing(Watches());
        ExpireMove(i, now, h);
      }
    }

    /** The visit of `expire_items` to a record whose deadline has passed:
        unlinked with EXPIRED. */
    method ExpireDrop(i: nat, now: u32, ghost hs: seq<Handle>, h: Handle)
      requires WatchesOk() && Ok(cfg, Mem()) && i < SWEPT && Scannable(Mem(), hs) && hs != [] && h == hs[0]
      requires h in items && items[h].expireTime <= now
      modifies this`items, this`index, this`lists, this`freeCount, this`memUsed, watchMap.Values
      ensures WatchesOk()
      ensures var r := ExpireHead(cfg, old(Mem()), i, now, hs);
        Mem() == r.s && Watches() == ToldAll(old(Watches()), r.notes)
      ensures Shaped() == old(Shaped())
    {
      ExpireHeadDrops(cfg, Mem(), i, now, hs);
      ToldOne(Watches(), Announce(items[h], Expired));
      DoUnlink(h, Expired);
    }

    /** The visit of `expire_items` to a record still live: moved to the
        front of the bucket its remaining lifetime reaches (282-292). */
    method ExpireMove(i: nat, now: u32, h: Handle)
      requires i < SWEPT && h in items && items[h].expireTime > now
      requires items[h].expirationId < |lists| && Finer(i, items[h].expireTime - now) < |lists|
      modifies this`items, this`lists
      ensures Mem() == MoveToBucket(old(Mem()), h, Finer(i, old(items[h].expireTime) - now))
      ensures Watches() == old(Watches()) && (old(WatchesOk()) ==> WatchesOk())
      ensures Shaped() == old(Shaped())
    {
      var j := FinerBucket(i, items[h].expireTime - now);
      MoveItem(h, j);
    }

    /** One more visit of the scan of bucket `i`. */
    method ExpireNext(i: nat, now: u32, ghost r0: Swept, ghost w0: map<u32, WatchState>, hs: seq<Handle>, k: nat,
                      ghost done: Swept) returns (ghost done': Swept)
      requires WatchesOk() && ExpireScannedTo(cfg, i, now, r0, w0, hs, k, done, Mem(), Watches()) && k < |hs|
      modifies this`items, this`index, this`lists, this`freeCount, this`memUsed, watchMap.Values
      ensures WatchesOk() && ExpireScannedTo(cfg, i, now, r0, w0, hs, k + 1, done', Mem(), Watches())
      ensures Shaped() == old(Shaped())
    {
      ghost var s, w := Mem(), Watches();
      ExpireVisit(i, now, hs[k..], hs[k]);
      ExpireScannedStep(cfg, i, now, r0, w0, hs, k, done, s, w, Mem(), Watches());
      done' := Then(done, ExpireHead(cfg, s, i, now, hs[k..]));
    }

    /** The scan of bucket `i` by `expire_items`, over the bucket as it
        was when the scan began. */
    method ExpireBucket(i: nat, now: u32)
      requires WatchesOk() && Ok(cfg, Mem()) && i < SWEPT
      modifies this`items, this`index, this`lists, this`freeCount, this`memUsed, watchMap.Values
      ensures WatchesOk() && Ok(cfg, Mem())
      ensures i < |old(lists)| && Scannable(old(Mem()), old(lists[i]))
      ensures var r := ExpireScan(cfg, old(Mem()), i, now, old(lists[i]));
        Mem() == r.s && Watches() == ToldAll(old(Watches()), r.notes)
      ensures Shaped() == old(Shaped())
    {
      BucketScannable(cfg, Mem(), i);
      ghost var s0, w0 := Mem(), Watches();
      var hs := lists[i];
      ExpireScannedStart(cfg, i, now, s0, w0, hs);
      ghost var r0 := ExpireScan(cfg, s0, i, now, hs);
      ghost var done := Swept(s0, [], []);
      var k := 0;
      while k < |hs|
        invariant WatchesOk() && ExpireScannedTo(cfg, i, now, r0, w0, hs, k, done, Mem(), Watches())
        invariant Shaped() == old(Shaped())
      {
        done := ExpireNext(i, now, r0, w0, hs, k, done);
        k := k + 1;
      }
      ExpireScannedDone(cfg, i, now, r0, w0, hs, done, Mem(), Watches());
    }

    /** One more bucket of `expire_items`: when its check time has come,
        a new check time, and the scan. */
    method ExpireNextBucket(now: u32, ghost r0: Swept, ghost w0: map<u32, WatchState>, ghost checks: seq<u32>, i: nat,
                            ghost done: Swept) returns (ghost done': Swept)
      requires WatchesOk() && Shaped() && i < SWEPT
      requires ExpiredBelow(cfg, now, r0, w0, checks, i, done, Mem(), Watches(), expireCheckTime)
      modifies this`items, this`index, this`lists, this`freeCount, this`memUsed, this`expireCheckTime, watchMap.Values
      ensures WatchesOk() && Shaped()
      ensures ExpiredBelow(cfg, now, r0, w0, checks, i + 1, done', Mem(), Watches(), expireCheckTime)
    {
      if now >= expireCheckTime[i] {
        done' := ExpireDueBucket(now, r0, w0, checks, i, done);
      } else {
        ExpiredBelowIdle(cfg, now, r0, w0, checks, i, done, Mem(), Watches(), expireCheckTime);
        done' := done;
      }
    }

    /** A bucket of `expire_items` whose check time has come. */
    method ExpireDueBucket(now: u32, ghost r0: Swept, ghost w0: map<u32, WatchState>, ghost checks: seq<u32>, i: nat,
                           ghost done: Swept) returns (ghost done': Swept)
      requires WatchesOk() && Shaped() && i < SWEPT
      requires ExpiredBelow(cfg, now, r0, w0, checks, i, done, Mem(), Watches(), expireCheckTime)
      requires now >= expireCheckTime[i]
      modifies this`items, this`index, this`lists, this`freeCount, this`memUsed, this`expireCheckTime, watchMap.Values
      ensures WatchesOk() && Shaped()
      ensures ExpiredBelow(cfg, now, r0, w0, checks, i + 1, done', Mem(), Watches(), expireCheckTime)
    {
      ghost var s, w, ect := Mem(), Watches(), expireCheckTime;
      label Due:
      expireCheckTime := expireCheckTime[i := CheckDeadline(now, i)];
      StatesUnchanged@Due(watchMap);
      ExpireBucket(i, now);
      ExpiredBelowDue(cfg, now, r0, w0, checks, i, done, s, w, ect, Mem(), Watches());
      done' := Then(done, ExpireScan(cfg, s, i, now, s.lists[i]));
    }

    /** `expire_items` (270-297): each of the 33 finite buckets whose
        check time has come gets a new check time and is scanned. */
    method ExpireItems(now: u32)
      requires Valid()
      modifies this`items, this`index, this`lists, this`freeCount, this`memUsed, this`expireCheckTime, watchMap.Values
      ensures Valid()
      ensures var r := ExpireFrom(cfg, old(Mem()), old(expireCheckTime), now, 0);
        Mem() == r.s && Watches() == ToldAll(old(Watches()), r.notes)
      ensures expireCheckTime == Rechecked(old(expireCheckTime), now)
    {
      ghost var s0, w0, checks := Mem(), Watches(), expireCheckTime;
      ExpiredBelowStart(cfg, now, s0, w0, checks);
      ghost var r0 := ExpireFrom(cfg, s0, checks, now, 0);
      ghost var done := ExpireAll(now, r0, s0, w0, checks);
      ExpiredBelowDone(cfg, now, r0, w0, checks, done, Mem(), Watches(), expireCheckTime);
    }

    /** The loop of `expire_items` over the 33 finite buckets. */
    method ExpireAll(now: u32, ghost r0: Swept, ghost s0: MemState, ghost w0: map<u32, WatchState>, ghost checks: seq<u32>)
      returns (ghost done: Swept)
      requires WatchesOk() && Shaped()
      requires ExpiredBelow(cfg, now, r0, w0, checks, 0, Swept(s0, [], []), Mem(), Watches(), expireCheckTime)
      modifies this`items, this`index, this`lists, this`freeCount, this`memUsed, this`expireCheckTime, watchMap.Values
      ensures WatchesOk() && Shaped()
      ensures ExpiredBelow(cfg, now, r0, w0, checks, SWEPT, done, Mem(), Watches(), expireCheckTime)
    {
      done := Swept(s0, [], []);
      var i := 0;
      while i < SWEPT
        invariant WatchesOk() && Shaped()
        invariant ExpiredBelow(cfg, now, r0, w0, checks, i, done, Mem(), Watches(), expireCheckTime)
      {
        done := ExpireNextBucket(now, r0, w0, checks, i, done);
        i := i + 1;
      }
    }

    /** `check_expired` (208-220): once per distinct time, the expired
        watches are dropped, then the due buckets swept; the flush list
        it then frees is always empty (see `flush`). */
    method CheckExpired(now: u32)
      requires Valid()
      modifies this`items, this`index, this`lists, this`freeCount, this`memUsed, this`expireCheckTime,
        this`lastCheckExpiredTime, this`watchMap, watchMap.Values
      ensures Valid() && lastCheckExpiredTime == now
      ensures now == old(lastCheckExpiredTime) ==>
        Mem() == old(Mem()) && Watches() == old(Watches()) && expireCheckTime == old(expireCheckTime)
      ensures now != old(lastCheckExpiredTime) ==>
        var r := ExpireFrom(cfg, old(Mem()), old(expireCheckTime), now, 0);
        && Mem() == r.s
        && Watches() == ToldAll(Unexpired(old(Watches()), now), r.notes)
        && expireCheckTime == Rechecked(old(expireCheckTime), now)
    {
      if now != lastCheckExpiredTime {
        label Due:
        lastCheckExpiredTime := now;
        StatesUnchanged@Due(watchMap);
        assert forall w <- watchMap.Values :: (w as object) != this;
        ExpireAt(now);
      }
    }

    /** The expiry `check_expired` does at a new time `now`. */
    method ExpireAt(now: u32)
      requires Valid()
      modifies this`items, this`index, this`lists, this`freeCount, this`memUsed, this`expireCheckTime,
        this`watchMap, watchMap.Values
      ensures Valid()
      ensures var r := ExpireFrom(cfg, old(Mem()), old(expireCheckTime), now, 0);
        && Mem() == r.s
        && Watches() == ToldAll(Unexpired(old(Watches()), now), r.notes)
        && expireCheckTime == Rechecked(old(expireCheckTime), now)
    {
      ExpireWatchs(now);
      ExpireItems(now);
    }

    /** One visit of the `flush` scan (1089-1100) to the record `h` at the
        head of the snapshot `hs`: unlinked with FLUSHED when it belongs to
        group `g`; the count and size it adds. */
    method FlushVisit(g: u32, ghost hs: seq<Handle>, h: Handle) returns (count: nat, size: nat)
      requires WatchesOk() && Ok(cfg, Mem()) && Scannable(Mem(), hs) && hs != [] && h == hs[0]
      modifies this`items, this`index, this`lists, this`freeCount, this`memUsed, watchMap.Values
      ensures WatchesOk()
      ensures var r := FlushHead(cfg, old(Mem()), g, hs);
        && Mem() == r.s && Watches() == ToldAll(old(Watches()), r.notes)
        && count == |r.gone| && size == Total(cfg.header, r.gone)
      ensures Shaped() == old(Shaped())
    {
      FlushScanUnfold(cfg, Mem(), g, hs);
      var it := items[h];
      if it.groupId == g {
        ToldOne(Watches(), Announce(it, Flushed));
        count, size := 1, TotalSize(cfg.header, it);
        DoUnlink(h, Flushed);
      } else {
        ToldNothing(Watches());
        count, size := 0, 0;
      }
    }

    /** One more visit of the `flush` scan of a bucket, with the count
        and size so far. */
    method FlushNext(g: u32, ghost r0: Swept, ghost w0: map<u32, WatchState>, hs: seq<Handle>, k: nat,
                     ghost done: Swept, count: nat, size: nat) returns (count': nat, size': nat, ghost done': Swept)
      requires WatchesOk() && FlushScannedTo(cfg, g, r0, w0, hs, k, done, count, size, Mem(), Watches()) && k < |hs|
      modifies this`items, this`index, this`lists, this`freeCount, this`memUsed, watchMap.Values
      ensures WatchesOk() && FlushScannedTo(cfg, g, r0, w0, hs, k + 1, done', count', size', Mem(), Watches())
      ensures Shaped() == old(Shaped())
    {
      ghost var s, w := Mem(), Watches();
      var c, z := FlushVisit(g, hs[k..], hs[k]);
      FlushScannedStep(cfg, g, r0, w0, hs, k, done, count, size, s, w, c, z, Mem(), Watches());
      count', size' := count + c, size + z;
      done' := Then(done, FlushHead(cfg, s, g, hs[k..]));
    }

    /** The scan of bucket `i` by `flush`, over the bucket as it was when
        the scan began. */
    method FlushBucket(g: u32, i: nat) returns (count: nat, size: nat)
      requires WatchesOk() && Ok(cfg, Mem()) && i < BUCKETS
      modifies this`items, this`index, this`lists, this`freeCount, this`memUsed, watchMap.Values
      ensures WatchesOk() && Ok(cfg, Mem())
      ensures i < |old(lists)| && Scannable(old(Mem()), old(lists[i]))
      ensures var r := FlushScan(cfg, old(Mem()), g, old(lists[i]));
        && Mem() == r.s && Watches() == ToldAll(old(Watches()), r.notes)
        && count == |r.gone| && size == Total(cfg.header, r.gone)
      ensures Shaped() == old(Shaped())
    {
      BucketScannable(cfg, Mem(), i);
      ghost var s0, w0 := Mem(), Watches();
      var hs := lists[i];
      FlushScannedStart(cfg, g, s0, w0, hs);
      ghost var r0 := FlushScan(cfg, s0, g, hs);
      ghost var done := Swept(s0, [], []);
      count, size := 0, 0;
      var k := 0;
      while k < |hs|
        invariant WatchesOk() && FlushScannedTo(cfg, g, r0, w0, hs, k, done, count, size, Mem(), Watches())
        invariant Shaped() == old(Shaped())
      {
        count, size, done := FlushNext(g, r0, w0, hs, k, done, count, size);
        k := k + 1;
      }
      FlushScannedDone(cfg, g, r0, w0, hs, done, count, size, Mem(), Watches());
    }

    /** One more bucket of `flush`, with the count and size so far. */
    method FlushNextBucket(g: u32, ghost r0: Swept, ghost w0: map<u32, WatchState>, i: nat, ghost done: Swept,
                           count: nat, size: nat) returns (count': nat, size': nat, ghost done': Swept)
      requires WatchesOk() && FlushedBelow(cfg, g, r0, w0, i, done, count, size, Mem(), Watches()) && i < BUCKETS
      modifies this`items, this`index, this`lists, this`freeCount, this`memUsed, watchMap.Values
      ensures WatchesOk() && FlushedBelow(cfg, g, r0, w0, i + 1, done', count', size', Mem(), Watches())
      ensures Shaped() == old(Shaped())
    {
      ghost var s, w := Mem(), Watches();
      var c, z := FlushBucket(g, i);
      FlushedBelowStep(cfg, g, r0, w0, i, done, count, size, s, w, c, z, Mem(), Watches());
      count', size' := count + c, size + z;
      done' := Then(done, FlushScan(cfg, s, g, s.lists[i]));
    }

    /** The loop of `flush` over the 34 buckets, begun on the store `s0`. */
    method FlushAll(g: u32, ghost r0: Swept, ghost s0: MemState, ghost w0: map<u32, WatchState>)
      returns (count: nat, size: nat, ghost done: Swept)
      requires WatchesOk() && Shaped()
      requires FlushedBelow(cfg, g, r0, w0, 0, Swept(s0, [], []), 0, 0, Mem(), Watches())
      modifies this`items, this`index, this`lists, this`freeCount, this`memUsed, watchMap.Values
      ensures WatchesOk() && Shaped() && FlushedBelow(cfg, g, r0, w0, BUCKETS, done, count, size, Mem(), Watches())
    {
      done := Swept(s0, [], []);
      count, size := 0, 0;
      var i := 0;
      while i < BUCKETS
        invariant WatchesOk() && FlushedBelow(cfg, g, r0, w0, i, done, count, size, Mem(), Watches())
        invariant Shaped()
      {
        count, size, done := FlushNextBucket(g, r0, w0, i, done, count, size);
        i := i + 1;
      }
    }

    /** `flush` (1084-1103): every record of group `g` is unlinked with
        FLUSHED, bucket by bucket over all 34 buckets; the number of records
        and the sum of their `total_size()`. */
    method Flush(g: u32) returns (count: nat, size: nat)
      requires Valid()
      modifies this`items, this`index, this`lists, this`freeCount, this`memUsed, watchMap.Values
      ensures Valid()
      ensures var r := FlushFrom(cfg, old(Mem()), g, 0);
        && Mem() == r.s && Watches() == ToldAll(old(Watches()), r.notes)
        && count == |r.gone| && size == Total(cfg.header, r.gone)
    {
      ghost var s0, w0 := Mem(), Watches();
      FlushedBelowStart(cfg, g, s0, w0);
      ghost var r0 := FlushFrom(cfg, s0, g, 0);
      ghost var done;
      count, size, done := FlushAll(g, r0, s0, w0);
      FlushedBelowDone(cfg, g, r0, w0, done, count, size, Mem(), Watches());
    }
  }
}
