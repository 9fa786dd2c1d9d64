/** The cache manager's invariants stated over plain values, with one
    small lemma per kind of update, so that each method of the manager
    only has to pick the lemma for the step it takes. */
module CacheState {
  import opened CacheTypes
  import opened Seqs
  import opened Slab
  import opened Expiration
  import opened Store

  /** `total_size()` of an item: its header and its three byte strings. */
  function TotalSize(header: nat, it: Item): nat {
    ItemSize(header, |it.key|, |it.data|, |it.ext|)
  }

  // ---------------- allocator accounting ----------------

  /** The class size of an item's buffer. */
  function BufferSize(maxSize: seq<nat>, it: Item): nat {
    if it.classId < |maxSize| then maxSize[it.classId] else 0
  }

  /** The bytes held by the allocated item buffers with handles below `n`. */
  ghost function BufferBytes(maxSize: seq<nat>, items: Arena, n: nat): nat
    decreases n
  {
    if n == 0 then 0
    else BufferBytes(maxSize, items, n - 1) + if n - 1 in items then BufferSize(maxSize, items[n - 1]) else 0
  }

  /** Two arenas that agree on buffer sizes below `n` hold the same bytes. */
  lemma {:induction false} BufferBytesSame(maxSize: seq<nat>, a: Arena, b: Arena, n: nat)
    requires forall h :: h < n ==> (h in a <==> h in b)
    requires forall h :: h < n && h in a ==> BufferSize(maxSize, a[h]) == BufferSize(maxSize, b[h])
    ensures BufferBytes(maxSize, a, n) == BufferBytes(maxSize, b, n)
    decreases n
  {
    if n > 0 {
      BufferBytesSame(maxSize, a, b, n - 1);
    }
  }

  lemma BufferBytesInsert(maxSize: seq<nat>, items: Arena, n: nat, it: Item)
    ensures BufferBytes(maxSize, items[n := it], n + 1) == BufferBytes(maxSize, items, n) + BufferSize(maxSize, it)
  {
    BufferBytesSame(maxSize, items, items[n := it], n);
  }

  lemma {:induction false} BufferBytesRemove(maxSize: seq<nat>, items: Arena, n: nat, h: Handle)
    requires h in items && h < n
    ensures BufferBytes(maxSize, items - {h}, n) + BufferSize(maxSize, items[h]) == BufferBytes(maxSize, items, n)
    decreases n
  {
    if h < n - 1 {
      BufferBytesRemove(maxSize, items, n - 1, h);
    } else {
      BufferBytesSame(maxSize, items, items - {h}, n - 1);
    }
  }

  lemma BufferBytesUpdate(maxSize: seq<nat>, items: Arena, n: nat, h: Handle, it: Item)
    requires h in items && it.classId == items[h].classId
    ensures BufferBytes(maxSize, items[h := it], n) == BufferBytes(maxSize, items, n)
  {
    BufferBytesSame(maxSize, items, items[h := it], n);
  }

  /** Every byte counted in `mem_used_` is either an allocated item buffer
      or a buffer parked on a free list; the free lists stay within their
      caps and the total within the limit. */
  ghost predicate PoolOk(maxSize: seq<nat>, freeMax: seq<nat>, memLimit: nat,
                         freeCount: seq<nat>, memUsed: nat, items: Arena, next: Handle)
  {
    && |freeMax| == |maxSize| && |freeCount| == |maxSize|
    && (forall c :: 0 <= c < |freeCount| ==> freeCount[c] <= freeMax[c])
    && memUsed == ClassBytes(freeCount, maxSize, |freeCount|) + BufferBytes(maxSize, items, next)
    && memUsed <= memLimit
  }

  /** Reusing a parked buffer of class `c` for a new item `it` at `next`. */
  lemma PoolTake(maxSize: seq<nat>, freeMax: seq<nat>, memLimit: nat,
                 freeCount: seq<nat>, memUsed: nat, items: Arena, next: Handle, it: Item)
    requires PoolOk(maxSize, freeMax, memLimit, freeCount, memUsed, items, next)
    requires it.classId < |freeCount| && freeCount[it.classId] > 0
    ensures PoolOk(maxSize, freeMax, memLimit, freeCount[it.classId := freeCount[it.classId] - 1],
                   memUsed, items[next := it], next + 1)
  {
    ClassBytesDec(freeCount, maxSize, it.classId);
    BufferBytesInsert(maxSize, items, next, it);
  }

  /** Allocating a new buffer of the class of `it` for it at `next`. */
  lemma PoolGrow(maxSize: seq<nat>, freeMax: seq<nat>, memLimit: nat,
                 freeCount: seq<nat>, memUsed: nat, items: Arena, next: Handle, it: Item)
    requires PoolOk(maxSize, freeMax, memLimit, freeCount, memUsed, items, next)
    requires it.classId < |maxSize| && memUsed + maxSize[it.classId] <= memLimit
    ensures PoolOk(maxSize, freeMax, memLimit, freeCount, memUsed + maxSize[it.classId], items[next := it], next + 1)
  {
    BufferBytesInsert(maxSize, items, next, it);
  }

  /** Rewriting a record in its own buffer leaves the accounting alone. */
  lemma PoolUpdate(maxSize: seq<nat>, freeMax: seq<nat>, memLimit: nat,
                   freeCount: seq<nat>, memUsed: nat, items: Arena, next: Handle, h: Handle, it: Item)
    requires PoolOk(maxSize, freeMax, memLimit, freeCount, memUsed, items, next)
    requires h in items && it.classId == items[h].classId
    ensures PoolOk(maxSize, freeMax, memLimit, freeCount, memUsed, items[h := it], next)
  {
    BufferBytesUpdate(maxSize, items, next, h, it);
  }

  /** `free_item`'s effect on the free lists: the buffer is parked on its
      class's list while that is below its cap, and otherwise given back,
      lowering `mem_used_`. */
  ghost predicate Recycled(maxSize: seq<nat>, freeMax: seq<nat>, c: nat,
                           free0: seq<nat>, mem0: nat, free1: seq<nat>, mem1: nat)
  {
    && c < |free0| && c < |freeMax| && c < |maxSize|
    && if free0[c] < freeMax[c] then free1 == free0[c := free0[c] + 1] && mem1 == mem0
       else free1 == free0 && mem1 + maxSize[c] == mem0
  }

  /** Giving up the buffer of the item at `h`. */
  lemma PoolGive(maxSize: seq<nat>, freeMax: seq<nat>, memLimit: nat,
                 freeCount: seq<nat>, memUsed: nat, items: Arena, next: Handle, h: Handle)
    requires PoolOk(maxSize, freeMax, memLimit, freeCount, memUsed, items, next)
    requires h in items && h < next && items[h].classId < |maxSize|
    ensures var c := items[h].classId;
      && (freeCount[c] < freeMax[c] ==>
        PoolOk(maxSize, freeMax, memLimit, freeCount[c := freeCount[c] + 1], memUsed, items - {h}, next))
      && (freeCount[c] >= freeMax[c] ==>
        memUsed >= maxSize[c] &&
        PoolOk(maxSize, freeMax, memLimit, freeCount, memUsed - maxSize[c], items - {h}, next))
  {
    var c := items[h].classId;
    BufferBytesRemove(maxSize, items, next, h);
    if freeCount[c] < freeMax[c] {
      ClassBytesInc(freeCount, maxSize, c, |freeCount|);
    }
  }

  // ---------------- the arena of item buffers ----------------

  /** One item buffer: below the next handle, of a real class, large
      enough for the record, and filed under a real bucket. */
  ghost predicate ItemOk(header: nat, maxSize: seq<nat>, classIdMax: nat, it: Item, h: Handle, next: Handle) {
    && h < next
    && CLASSID_MIN <= it.classId <= classIdMax && it.classId < |maxSize|
    && TotalSize(header, it) <= maxSize[it.classId]
    && it.expirationId < BUCKETS
  }

  ghost predicate ArenaOk(header: nat, maxSize: seq<nat>, classIdMax: nat, items: Arena, next: Handle) {
    forall h :: h in items ==> ItemOk(header, maxSize, classIdMax, items[h], h, next)
  }

  lemma ArenaInsert(header: nat, maxSize: seq<nat>, classIdMax: nat, items: Arena, next: Handle, it: Item)
    requires ArenaOk(header, maxSize, classIdMax, items, next)
    requires ItemOk(header, maxSize, classIdMax, it, next, next + 1)
    ensures next !in items
    ensures ArenaOk(header, maxSize, classIdMax, items[next := it], next + 1)
  {
  }

  lemma ArenaRemove(header: nat, maxSize: seq<nat>, classIdMax: nat, items: Arena, next: Handle, h: Handle)
    requires ArenaOk(header, maxSize, classIdMax, items, next)
    ensures ArenaOk(header, maxSize, classIdMax, items - {h}, next)
  {
  }

  /** Rewriting a record in its own buffer: same class, still fitting. */
  lemma ArenaUpdate(header: nat, maxSize: seq<nat>, classIdMax: nat, items: Arena, next: Handle, h: Handle, it: Item)
    requires ArenaOk(header, maxSize, classIdMax, items, next)
    requires h in items && it.classId == items[h].classId
    requires TotalSize(header, it) <= maxSize[it.classId] && it.expirationId < BUCKETS
    ensures ArenaOk(header, maxSize, classIdMax, items[h := it], next)
  {
  }

  // ---------------- references ----------------

  /** Every allocated item is referenced: one whose count reaches 0 is
      freed at once. */
  ghost predicate AllLive(items: Arena) {
    forall h :: h in items ==> items[h].refCount >= 1
  }

  /** Rewriting a record with one that is still referenced. */
  lemma LiveSet(items: Arena, items': Arena, h: Handle, it: Item)
    requires AllLive(items) && it.refCount >= 1 && items' == items[h := it]
    ensures AllLive(items')
  {
  }

  /** Rewriting a record keeps the others referenced. */
  lemma LiveOthers(items: Arena, items': Arena, h: Handle, it: Item)
    requires AllLive(items) && items' == items[h := it]
    ensures AllLive(items' - {h})
  {
  }

  // ---------------- the whole store ----------------

  /** The manager's fixed layout: `sizeof(Cache_Item)`, the class table,
      the free-list caps, the largest class id and `mem_limit_`. */
  datatype Config = Config(header: nat, maxSize: seq<nat>, freeMax: seq<nat>, classIdMax: nat, memLimit: nat)

  /** The manager's allocator and store fields at one moment. */
  datatype MemState = MemState(freeCount: seq<nat>, memUsed: nat, items: Arena, next: Handle,
                               index: Index, lists: Buckets)

  ghost predicate MemOk(cfg: Config, s: MemState) {
    && PoolOk(cfg.maxSize, cfg.freeMax, cfg.memLimit, s.freeCount, s.memUsed, s.items, s.next)
    && ArenaOk(cfg.header, cfg.maxSize, cfg.classIdMax, s.items, s.next)
    && Linkage(s.items, s.index, s.lists)
  }

  /** A record that may replace the one at `h` in place: same buffer
      class, still fitting it, same key and same bucket. */
  ghost predicate Rewritable(cfg: Config, s: MemState, h: Handle, it: Item) {
    && h in s.items
    && it.classId == s.items[h].classId
    && TotalSize(cfg.header, it) <= BufferSize(cfg.maxSize, it)
    && KeyOf(it) == KeyOf(s.items[h])
    && it.expirationId == s.items[h].expirationId
  }

  /** `do_alloc`: a new record at the next handle, in a recycled buffer or
      in newly counted bytes. */
  lemma MemInsert(cfg: Config, s: MemState, s': MemState, it: Item, free: seq<nat>, used: nat)
    requires MemOk(cfg, s)
    requires ItemOk(cfg.header, cfg.maxSize, cfg.classIdMax, it, s.next, s.next + 1)
    requires it.classId < |s.freeCount|
    requires || (s.freeCount[it.classId] > 0 && free == s.freeCount[it.classId := s.freeCount[it.classId] - 1] && used == s.memUsed)
             || (free == s.freeCount && used == s.memUsed + cfg.maxSize[it.classId] && used <= cfg.memLimit)
    requires s' == s.(items := s.items[s.next := it], next := s.next + 1, freeCount := free, memUsed := used)
    ensures MemOk(cfg, s')
    ensures s.next !in s.items && !IsLinked(s'.items, s'.index, s.next)
    ensures Contents(s'.items, s'.index) == Contents(s.items, s.index)
  {
    ArenaInsert(cfg.header, cfg.maxSize, cfg.classIdMax, s.items, s.next, it);
    if s.freeCount[it.classId] > 0 && free == s.freeCount[it.classId := s.freeCount[it.classId] - 1] && used == s.memUsed {
      PoolTake(cfg.maxSize, cfg.freeMax, cfg.memLimit, s.freeCount, s.memUsed, s.items, s.next, it);
    } else {
      PoolGrow(cfg.maxSize, cfg.freeMax, cfg.memLimit, s.freeCount, s.memUsed, s.items, s.next, it);
    }
    UpdateUnlinked(s.items, s.index, s.lists, s.next, it);
  }

  /** Rewriting the record at `h` in place, linked or not. */
  lemma MemRewrite(cfg: Config, s: MemState, s': MemState, h: Handle, it: Item)
    requires MemOk(cfg, s) && Rewritable(cfg, s, h, it)
    requires s' == s.(items := s.items[h := it])
    ensures MemOk(cfg, s')
    ensures IsLinked(s'.items, s'.index, h) == IsLinked(s.items, s.index, h)
    ensures IsLinked(s.items, s.index, h) ==>
      Contents(s'.items, s'.index) == Contents(s.items, s.index)[KeyOf(it) := it]
    ensures !IsLinked(s.items, s.index, h) ==>
      Contents(s'.items, s'.index) == Contents(s.items, s.index)
  {
    ArenaUpdate(cfg.header, cfg.maxSize, cfg.classIdMax, s.items, s.next, h, it);
    PoolUpdate(cfg.maxSize, cfg.freeMax, cfg.memLimit, s.freeCount, s.memUsed, s.items, s.next, h, it);
    if IsLinked(s.items, s.index, h) {
      UpdateLinked(s.items, s.index, s.lists, h, it);
    } else {
      UpdateUnlinked(s.items, s.index, s.lists, h, it);
    }
  }

  /** `do_link`: index the record and append it to its bucket. */
  lemma MemLink(cfg: Config, s: MemState, s': MemState, h: Handle, it: Item)
    requires MemOk(cfg, s) && h in s.items
    requires it.classId == s.items[h].classId && TotalSize(cfg.header, it) <= BufferSize(cfg.maxSize, it)
    requires KeyOf(it) == KeyOf(s.items[h]) && it.expirationId == s.items[h].expirationId
    requires KeyOf(it) !in s.index
    requires s' == s.(items := s.items[h := it], index := s.index[KeyOf(it) := h],
                      lists := s.lists[it.expirationId := s.lists[it.expirationId] + [h]])
    ensures MemOk(cfg, s') && IsLinked(s'.items, s'.index, h)
    ensures Contents(s'.items, s'.index) == Contents(s.items, s.index)[KeyOf(it) := it]
  {
    ArenaUpdate(cfg.header, cfg.maxSize, cfg.classIdMax, s.items, s.next, h, it);
    PoolUpdate(cfg.maxSize, cfg.freeMax, cfg.memLimit, s.freeCount, s.memUsed, s.items, s.next, h, it);
    LinkStep(s.items, s.index, s.lists, h, it);
  }

  /** The unlinking half of `do_unlink`: drop the key from the index and
      the handle from its bucket. */
  lemma MemUnlink(cfg: Config, s: MemState, s': MemState, h: Handle)
    requires MemOk(cfg, s) && IsLinked(s.items, s.index, h)
    requires s' == s.(index := s.index - {KeyOf(s.items[h])},
                      lists := s.lists[s.items[h].expirationId := Remove(s.lists[s.items[h].expirationId], h)])
    ensures MemOk(cfg, s') && !IsLinked(s'.items, s'.index, h)
    ensures Contents(s'.items, s'.index) == Contents(s.items, s.index) - {KeyOf(s.items[h])}
  {
    UnlinkStep(s.items, s.index, s.lists, h);
  }

  /** An allocated buffer is counted in `mem_used_`. */
  lemma MemHolds(cfg: Config, s: MemState, h: Handle)
    requires MemOk(cfg, s) && h in s.items
    ensures Holds(cfg, s, h)
  {
    BufferBytesRemove(cfg.maxSize, s.items, s.next, h);
  }

  /** `free_item`: the record's buffer is recycled or given back. */
  lemma MemFree(cfg: Config, s: MemState, s': MemState, h: Handle, free: seq<nat>, used: nat)
    requires MemOk(cfg, s) && h in s.items && !IsLinked(s.items, s.index, h)
    requires Recycled(cfg.maxSize, cfg.freeMax, s.items[h].classId, s.freeCount, s.memUsed, free, used)
    requires s' == s.(items := s.items - {h}, freeCount := free, memUsed := used)
    ensures MemOk(cfg, s')
    ensures Contents(s'.items, s'.index) == Contents(s.items, s.index)
  {
    PoolGive(cfg.maxSize, cfg.freeMax, cfg.memLimit, s.freeCount, s.memUsed, s.items, s.next, h);
    ArenaRemove(cfg.header, cfg.maxSize, cfg.classIdMax, s.items, s.next, h);
    RemoveUnlinked(s.items, s.index, s.lists, h);
  }

  /** The sweep's move of a linked survivor to the front of bucket `e'`. */
  lemma MemRebucket(cfg: Config, s: MemState, s': MemState, h: Handle, e': nat)
    requires MemOk(cfg, s) && IsLinked(s.items, s.index, h) && e' < BUCKETS
    requires var e := s.items[h].expirationId;
      var mid := s.lists[e := Remove(s.lists[e], h)];
      s' == s.(items := s.items[h := s.items[h].(expirationId := e')], lists := mid[e' := [h] + mid[e']])
    ensures MemOk(cfg, s') && IsLinked(s'.items, s'.index, h)
    ensures Contents(s'.items, s'.index) == Contents(s.items, s.index)[KeyOf(s.items[h]) := s'.items[h]]
  {
    var it := s.items[h].(expirationId := e');
    ArenaUpdate(cfg.header, cfg.maxSize, cfg.classIdMax, s.items, s.next, h, it);
    PoolUpdate(cfg.maxSize, cfg.freeMax, cfg.memLimit, s.freeCount, s.memUsed, s.items, s.next, h, it);
    Rebucket(s.items, s.index, s.lists, h, e');
  }

  // ---------------- the manager's steps, on values ----------------

  /** The store invariant of a quiescent manager: every allocated item is
      also still referenced by someone. */
  ghost predicate Ok(cfg: Config, s: MemState) {
    MemOk(cfg, s) && AllLive(s.items)
  }

  /** The items the cache serves, by key. */
  ghost function Cached(s: MemState): map<Key, Item>
    requires IndexOk(s.items, s.index)
  {
    Contents(s.items, s.index)
  }

  /** Every buffer other than `h` is as it was. */
  ghost predicate OthersKept(s: MemState, r: MemState, h: Handle) {
    forall x :: x != h ==> (x in r.items <==> x in s.items) && (x in s.items ==> r.items[x] == s.items[x])
  }

  /** The record at `h`, rewritten in its own buffer. */
  function Rewrite(s: MemState, h: Handle, it: Item): MemState {
    s.(items := s.items[h := it])
  }

  lemma RewriteOk(cfg: Config, s: MemState, h: Handle, it: Item)
    requires Ok(cfg, s) && Rewritable(cfg, s, h, it) && it.refCount >= 1
    ensures var r := Rewrite(s, h, it);
      && Ok(cfg, r) && OthersKept(s, r, h)
      && IsLinked(r.items, r.index, h) == IsLinked(s.items, s.index, h)
      && Cached(r) == if IsLinked(s.items, s.index, h) then Cached(s)[KeyOf(it) := it] else Cached(s)
  {
    MemRewrite(cfg, s, Rewrite(s, h, it), h, it);
    LiveSet(s.items, Rewrite(s, h, it).items, h, it);
  }

  /** Rewrites of two different records can be done in either order. */
  lemma RewriteSwap(s: MemState, a: Handle, b: Handle, ia: Item, ib: Item)
    requires a != b
    ensures Rewrite(Rewrite(s, a, ia), b, ib) == Rewrite(Rewrite(s, b, ib), a, ia)
  {
    assert s.items[a := ia][b := ib] == s.items[b := ib][a := ia];
  }

  /** A second rewrite of the same record supersedes the first. */
  lemma RewriteTwice(s: MemState, h: Handle, a: Item, b: Item)
    ensures Rewrite(Rewrite(s, h, a), h, b) == Rewrite(s, h, b)
  {
    assert Rewrite(Rewrite(s, h, a), h, b).items == Rewrite(s, h, b).items;
  }

  /** The record with one more reference. */
  function Referenced(it: Item): Item {
    it.(refCount := it.refCount + 1)
  }

  /** The `ref_count++` of `do_get`. */
  function Ref(s: MemState, h: Handle): MemState
    requires h in s.items
  {
    Rewrite(s, h, Referenced(s.items[h]))
  }

  lemma RefOk(cfg: Config, s: MemState, h: Handle)
    requires Ok(cfg, s) && h in s.items
    ensures var r := Ref(s, h);
      && Ok(cfg, r) && OthersKept(s, r, h)
      && IsLinked(r.items, r.index, h) == IsLinked(s.items, s.index, h)
      && Cached(r) == if IsLinked(s.items, s.index, h) then Cached(s)[KeyOf(s.items[h]) := r.items[h]] else Cached(s)
  {
    var it := s.items[h].(refCount := s.items[h].refCount + 1);
    assert Ref(s, h) == Rewrite(s, h, it) && KeyOf(it) == KeyOf(s.items[h]);
    RewriteOk(cfg, s, h, it);
  }

  /** A reference taken on the record cached under `k` changes only that
      record's reference count. */
  lemma RefCached(cfg: Config, s: MemState, k: Key)
    requires Ok(cfg, s) && k in s.index
    ensures s.index[k] in s.items && Ok(cfg, Ref(s, s.index[k]))
    ensures Cached(Ref(s, s.index[k])) == Cached(s)[k := Referenced(Cached(s)[k])]
  {
    var x := s.index[k];
    var it := s.items[x];
    assert KeyOf(it) == k && IsLinked(s.items, s.index, x) && Cached(s)[k] == it;
    RefOk(cfg, s, x);
    var r := Ref(s, x);
    assert Cached(r) == Cached(s)[k := r.items[x]];
  }

  /** The record at `h` is allocated, its class has a free list, and its
      buffer is counted in `mem_used_`: what freeing it needs. */
  predicate Holds(cfg: Config, s: MemState, h: Handle) {
    && h in s.items
    && var c := s.items[h].classId;
    && c < |s.freeCount| && c < |cfg.freeMax| && c < |cfg.maxSize|
    && s.memUsed >= cfg.maxSize[c]
  }

  /** `free_item`: the buffer of an unlinked record without references is
      parked on its class's free list while that is below its cap, and is
      otherwise given back, lowering `mem_used_`. */
  function Free(cfg: Config, s: MemState, h: Handle): MemState
    requires Holds(cfg, s, h)
  {
    var c := s.items[h].classId;
    if s.freeCount[c] < cfg.freeMax[c] then s.(items := s.items - {h}, freeCount := s.freeCount[c := s.freeCount[c] + 1])
    else s.(items := s.items - {h}, memUsed := s.memUsed - cfg.maxSize[c])
  }

  lemma FreeOk(cfg: Config, s: MemState, h: Handle)
    requires MemOk(cfg, s) && AllLive(s.items - {h})
    requires h in s.items && !IsLinked(s.items, s.index, h)
    ensures Holds(cfg, s, h)
    ensures var r := Free(cfg, s, h);
      && Ok(cfg, r) && r.items == s.items - {h}
      && Recycled(cfg.maxSize, cfg.freeMax, s.items[h].classId, s.freeCount, s.memUsed, r.freeCount, r.memUsed)
      && Cached(r) == Cached(s)
  {
    MemHolds(cfg, s, h);
    var r := Free(cfg, s, h);
    MemFree(cfg, s, r, h, r.freeCount, r.memUsed);
  }

  /** `do_release_reference`: one reference fewer, and the buffer freed
      when none is left. */
  function Release(cfg: Config, s: MemState, h: Handle): MemState
    requires Holds(cfg, s, h) && s.items[h].refCount >= 1
  {
    var it := s.items[h];
    if it.refCount == 1 then
      Free(cfg, Rewrite(s, h, it.(refCount := 0)), h)
    else
      Rewrite(s, h, it.(refCount := it.refCount - 1))
  }

  /** The buffer is freed exactly when its last reference goes; the
      linkage's own reference is never the one given up here. */
  lemma ReleaseOk(cfg: Config, s: MemState, h: Handle)
    requires Ok(cfg, s) && h in s.items
    requires IsLinked(s.items, s.index, h) ==> s.items[h].refCount >= 2
    ensures Holds(cfg, s, h)
    ensures var r := Release(cfg, s, h);
      && Ok(cfg, r) && OthersKept(s, r, h)
      && (h in r.items <==> s.items[h].refCount >= 2)
      && (h !in r.items ==>
           Recycled(cfg.maxSize, cfg.freeMax, s.items[h].classId, s.freeCount, s.memUsed, r.freeCount, r.memUsed))
      && (h in r.items ==> r.freeCount == s.freeCount && r.memUsed == s.memUsed)
      && r.index == s.index && r.lists == s.lists && r.next == s.next
      && IsLinked(r.items, r.index, h) == IsLinked(s.items, s.index, h)
      && Cached(r) == if IsLinked(s.items, s.index, h) then Cached(s)[KeyOf(s.items[h]) := r.items[h]] else Cached(s)
  {
    var it := s.items[h];
    MemHolds(cfg, s, h);
    if it.refCount == 1 {
      var dead := Rewrite(s, h, it.(refCount := 0));
      MemRewrite(cfg, s, dead, h, it.(refCount := 0));
      LiveOthers(s.items, dead.items, h, it.(refCount := 0));
      FreeOk(cfg, dead, h);
      assert Release(cfg, s, h) == Free(cfg, dead, h);
    } else {
      RewriteOk(cfg, s, h, it.(refCount := it.refCount - 1));
      assert Release(cfg, s, h) == Rewrite(s, h, it.(refCount := it.refCount - 1));
    }
  }

  /** A reference given back after a rewrite that added one is a single
      rewrite. */
  lemma RewriteRelease(cfg: Config, s: MemState, h: Handle, it: Item)
    requires Holds(cfg, s, h) && it.classId == s.items[h].classId && it.refCount >= 2
    ensures Holds(cfg, Rewrite(s, h, it), h)
    ensures Release(cfg, Rewrite(s, h, it), h) == Rewrite(s, h, it.(refCount := it.refCount - 1))
  {
    RewriteTwice(s, h, it, it.(refCount := it.refCount - 1));
  }

  /** A `do_get` reference given back leaves the store exactly as it was. */
  lemma RefRelease(cfg: Config, s: MemState, h: Handle)
    requires Holds(cfg, s, h) && s.items[h].refCount >= 1
    ensures Holds(cfg, Ref(s, h), h) && Release(cfg, Ref(s, h), h) == s
  {
    var it := s.items[h];
    assert Release(cfg, Ref(s, h), h) == Rewrite(Ref(s, h), h, it);
    RewriteTwice(s, h, it.(refCount := it.refCount + 1), it);
    assert Rewrite(s, h, it).items == s.items;
  }

  /** The record as `do_link` leaves it: the new cache id, the update
      time, and the linkage's reference. */
  function Stamped(it: Item, cacheId: u64, now: u32): Item {
    it.(cacheId := cacheId, lastUpdateTime := now, refCount := it.refCount + 1)
  }

  /** `do_link`: index the record, stamp it with `cacheId` and the time,
      add the linkage's reference and append it to its bucket. */
  function Link(s: MemState, h: Handle, cacheId: u64, now: u32): MemState
    requires h in s.items && s.items[h].expirationId < |s.lists|
  {
    var it := Stamped(s.items[h], cacheId, now);
    s.(items := s.items[h := it], index := s.index[KeyOf(it) := h],
       lists := s.lists[it.expirationId := s.lists[it.expirationId] + [h]])
  }

  lemma LinkOk(cfg: Config, s: MemState, h: Handle, cacheId: u64, now: u32)
    requires Ok(cfg, s) && h in s.items && KeyOf(s.items[h]) !in s.index
    ensures s.items[h].expirationId < |s.lists|
    ensures var r := Link(s, h, cacheId, now);
      && Ok(cfg, r) && IsLinked(r.items, r.index, h) && OthersKept(s, r, h)
      && r.items[h] == Stamped(s.items[h], cacheId, now)
      && Cached(r) == Cached(s)[KeyOf(s.items[h]) := r.items[h]]
  {
    var it := Stamped(s.items[h], cacheId, now);
    MemLink(cfg, s, Link(s, h, cacheId, now), h, it);
    LiveSet(s.items, Link(s, h, cacheId, now).items, h, it);
  }

  /** The first half of `do_unlink`: the key leaves the index and the
      record its bucket, and its watch set is deleted. */
  function Detach(s: MemState, h: Handle): MemState
    requires h in s.items && s.items[h].expirationId < |s.lists|
  {
    var it := s.items[h];
    var e := it.expirationId;
    var s1 := s.(index := s.index - {KeyOf(it)}, lists := s.lists[e := Remove(s.lists[e], h)]);
    Rewrite(s1, h, it.(watchers := {}))
  }

  /** `do_unlink` on the store: detach the record and give up the
      linkage's reference. */
  function Unlink(cfg: Config, s: MemState, h: Handle): MemState
    requires Holds(cfg, s, h) && s.items[h].refCount >= 1 && s.items[h].expirationId < |s.lists|
  {
    Release(cfg, Detach(s, h), h)
  }

  /** `do_unlink` touches the index and the buckets only at the
      record's own key and bucket. */
  lemma UnlinkShape(cfg: Config, s: MemState, h: Handle)
    requires Holds(cfg, s, h) && s.items[h].refCount >= 1 && s.items[h].expirationId < |s.lists|
    ensures var r := Unlink(cfg, s, h); var e := s.items[h].expirationId;
      && r.index == s.index - {KeyOf(s.items[h])} && r.lists == s.lists[e := Remove(s.lists[e], h)]
      && r.next == s.next
  {
    var it := s.items[h];
    var d := Detach(s, h);
    assert d.index == s.index - {KeyOf(it)} && d.lists == s.lists[it.expirationId := Remove(s.lists[it.expirationId], h)];
    assert d.items[h] == it.(watchers := {});
  }

  /** What an allocated record of a sound store offers the steps: its
      buffer is counted, it is referenced, and it names a real bucket. */
  lemma Placed(cfg: Config, s: MemState, h: Handle)
    requires Ok(cfg, s) && h in s.items
    ensures Holds(cfg, s, h) && s.items[h].refCount >= 1 && s.items[h].expirationId < |s.lists|
    ensures |s.lists| == BUCKETS
  {
    MemHolds(cfg, s, h);
  }

  lemma DetachOk(cfg: Config, s: MemState, h: Handle)
    requires Ok(cfg, s) && IsLinked(s.items, s.index, h)
    ensures Holds(cfg, s, h) && s.items[h].refCount >= 1 && s.items[h].expirationId < |s.lists|
    ensures var r := Detach(s, h);
      && Ok(cfg, r) && !IsLinked(r.items, r.index, h) && OthersKept(s, r, h)
      && r.items == s.items[h := s.items[h].(watchers := {})]
      && Cached(r) == Cached(s) - {KeyOf(s.items[h])}
      && KeyOf(s.items[h]) !in r.index
  {
    var it := s.items[h];
    var e := it.expirationId;
    Placed(cfg, s, h);
    var s1 := s.(index := s.index - {KeyOf(it)}, lists := s.lists[e := Remove(s.lists[e], h)]);
    MemUnlink(cfg, s, s1, h);
    assert Detach(s, h) == Rewrite(s1, h, it.(watchers := {}));
    RewriteOk(cfg, s1, h, it.(watchers := {}));
  }

  lemma UnlinkOk(cfg: Config, s: MemState, h: Handle)
    requires Ok(cfg, s) && IsLinked(s.items, s.index, h)
    ensures Holds(cfg, s, h) && s.items[h].refCount >= 1 && s.items[h].expirationId < |s.lists|
    ensures var r := Unlink(cfg, s, h);
      && Ok(cfg, r) && !IsLinked(r.items, r.index, h) && OthersKept(s, r, h)
      && (h in r.items <==> s.items[h].refCount >= 2)
      && (h in r.items ==> r.items[h] == s.items[h].(refCount := s.items[h].refCount - 1, watchers := {}))
      && Cached(r) == Cached(s) - {KeyOf(s.items[h])}
      && KeyOf(s.items[h]) !in r.index
  {
    var it := s.items[h];
    DetachOk(cfg, s, h);
    var d := Detach(s, h);
    ReleaseOk(cfg, d, h);
    assert Unlink(cfg, s, h) == Release(cfg, d, h);
  }

  /** Unlinking a record that carries a `do_get` reference and then giving
      that reference back is the plain `do_unlink`. */
  lemma UnlinkRef(cfg: Config, s: MemState, h: Handle)
    requires Holds(cfg, s, h) && s.items[h].refCount >= 1 && s.items[h].expirationId < |s.lists|
    ensures Holds(cfg, Ref(s, h), h) && Holds(cfg, Unlink(cfg, Ref(s, h), h), h)
    ensures Unlink(cfg, Ref(s, h), h).items[h].refCount >= 1
    ensures Release(cfg, Unlink(cfg, Ref(s, h), h), h) == Unlink(cfg, s, h)
  {
    var it := s.items[h];
    var e := it.expirationId;
    var t1 := s.(index := s.index - {KeyOf(it)}, lists := s.lists[e := Remove(s.lists[e], h)]);
    var w := it.(refCount := it.refCount + 1, watchers := {});
    assert Detach(Ref(s, h), h) == Rewrite(Rewrite(t1, h, it.(refCount := it.refCount + 1)), h, w);
    assert Unlink(cfg, Ref(s, h), h) == Rewrite(Rewrite(Rewrite(t1, h, it.(refCount := it.refCount + 1)), h, w), h, it.(watchers := {}));
    RewriteTwice(t1, h, it.(refCount := it.refCount + 1), w);
    RewriteTwice(t1, h, w, it.(watchers := {}));
  }

  /** Removing a key and then setting it is just setting it. */
  lemma ReplaceEntry(m: map<Key, Item>, k: Key, v: Item)
    ensures (m - {k})[k := v] == m[k := v]
  {
  }

  /** Setting a key twice is setting it to the second value. */
  lemma UpdateTwice(m: map<Key, Item>, k: Key, v: Item, w: Item)
    ensures m[k := v][k := w] == m[k := w]
  {
  }

  /** Setting a key and then removing it is just removing it. */
  lemma DropEntry(m: map<Key, Item>, k: Key, v: Item)
    ensures m[k := v] - {k} == m - {k}
  {
  }

  /** `do_replace`: unlink the record at `x` (its watches are told by the
      caller) and link the unlinked record at `n` with the same key. */
  function Supersede(cfg: Config, s: MemState, x: Handle, n: Handle, cacheId: u64, now: u32): MemState
    requires Holds(cfg, s, x) && s.items[x].refCount >= 1 && s.items[x].expirationId < |s.lists|
    requires n in s.items && n != x && s.items[n].expirationId < |s.lists|
  {
    var s1 := Unlink(cfg, s, x);
    assert s1.items[n] == s.items[n] && |s1.lists| == |s.lists|;
    Link(s1, n, cacheId, now)
  }

  /** The key now maps to the new record, stamped and with the linkage's
      reference; the old record lost its linkage reference and watch set;
      nothing else changed. */
  lemma SupersedeOk(cfg: Config, s: MemState, x: Handle, n: Handle, cacheId: u64, now: u32)
    requires Ok(cfg, s) && IsLinked(s.items, s.index, x)
    requires n in s.items && !IsLinked(s.items, s.index, n) && KeyOf(s.items[n]) == KeyOf(s.items[x])
    ensures x != n && Holds(cfg, s, x) && s.items[x].refCount >= 1
    ensures s.items[x].expirationId < |s.lists| && s.items[n].expirationId < |s.lists|
    ensures var r := Supersede(cfg, s, x, n, cacheId, now);
      && Ok(cfg, r) && IsLinked(r.items, r.index, n) && !IsLinked(r.items, r.index, x)
      && n in r.items && r.items[n] == Stamped(s.items[n], cacheId, now)
      && (x in r.items <==> s.items[x].refCount >= 2)
      && (x in r.items ==> r.items[x] == s.items[x].(refCount := s.items[x].refCount - 1, watchers := {}))
      && (forall y :: y != x && y != n ==> (y in r.items <==> y in s.items) && (y in s.items ==> r.items[y] == s.items[y]))
      && Cached(r) == Cached(s)[KeyOf(s.items[x]) := r.items[n]]
  {
    var k := KeyOf(s.items[x]);
    UnlinkOk(cfg, s, x);
    var s1 := Unlink(cfg, s, x);
    LinkOk(cfg, s1, n, cacheId, now);
    var r := Link(s1, n, cacheId, now);
    assert Supersede(cfg, s, x, n, cacheId, now) == r;
    ReplaceEntry(Cached(s), k, r.items[n]);
  }

  /** A `do_replace` keeps the handles and the records other than the
      one it unlinks; when that one keeps a reference besides the
      linkage's, nothing is freed. */
  lemma SupersedeHeld(cfg: Config, s: MemState, x: Handle, n: Handle, h: Handle, cacheId: u64, now: u32)
    requires Holds(cfg, s, x) && s.items[x].refCount >= 1 && s.items[x].expirationId < |s.lists|
    requires n in s.items && n != x && s.items[n].expirationId < |s.lists|
    ensures var r := Supersede(cfg, s, x, n, cacheId, now);
      && r.next == s.next && |r.lists| == |s.lists| && |r.freeCount| == |s.freeCount|
      && n in r.items && r.items[n] == Stamped(s.items[n], cacheId, now)
      && (h in s.items && h != x && h != n ==> h in r.items && r.items[h] == s.items[h])
      && (s.items[x].refCount >= 2 ==>
           && r.freeCount == s.freeCount && r.memUsed == s.memUsed
           && x in r.items && r.items[x] == s.items[x].(refCount := s.items[x].refCount - 1, watchers := {}))
  {
    var it := s.items[x];
    var d := Detach(s, x);
    assert d.items == s.items[x := it.(watchers := {})];
    RewriteTwice(d, x, it.(watchers := {}), it.(watchers := {}, refCount := it.refCount - 1));
  }

  // ---------------- steps on different records commute ----------------

  /** Giving up a reference to `x` and rewriting another record `h` can be
      done in either order. */
  lemma ReleaseRewrite(cfg: Config, s: MemState, x: Handle, h: Handle, it: Item)
    requires Holds(cfg, s, x) && s.items[x].refCount >= 1 && h in s.items && h != x
    ensures Holds(cfg, Rewrite(s, h, it), x) && h in Release(cfg, s, x).items
    ensures Release(cfg, Rewrite(s, h, it), x) == Rewrite(Release(cfg, s, x), h, it)
  {
    var y := s.items[x];
    if y.refCount == 1 {
      assert (s.items[h := it][x := y.(refCount := 0)] - {x}) == (s.items[x := y.(refCount := 0)] - {x})[h := it];
    } else {
      assert s.items[h := it][x := y.(refCount := y.refCount - 1)] == s.items[x := y.(refCount := y.refCount - 1)][h := it];
    }
  }

  /** Giving up a reference to `x` and linking another record `h` can be
      done in either order. */
  lemma ReleaseLink(cfg: Config, s: MemState, x: Handle, h: Handle, cacheId: u64, now: u32)
    requires Holds(cfg, s, x) && s.items[x].refCount >= 1
    requires h in s.items && h != x && s.items[h].expirationId < |s.lists|
    ensures Holds(cfg, Link(s, h, cacheId, now), x)
    ensures var t := Release(cfg, s, x);
      && h in t.items && t.items[h] == s.items[h] && t.lists == s.lists
      && Release(cfg, Link(s, h, cacheId, now), x) == Link(t, h, cacheId, now)
  {
    var y := s.items[x];
    var it := Stamped(s.items[h], cacheId, now);
    if y.refCount == 1 {
      assert (s.items[h := it][x := y.(refCount := 0)] - {x}) == (s.items[x := y.(refCount := 0)] - {x})[h := it];
    } else {
      assert s.items[h := it][x := y.(refCount := y.refCount - 1)] == s.items[x := y.(refCount := y.refCount - 1)][h := it];
    }
  }

  /** A `do_replace` of a record carrying a `do_get` reference, followed by
      giving that reference back, is the plain `do_replace`. */
  lemma SupersedeRef(cfg: Config, s: MemState, x: Handle, n: Handle, cacheId: u64, now: u32)
    requires Holds(cfg, s, x) && s.items[x].refCount >= 1 && s.items[x].expirationId < |s.lists|
    requires n in s.items && n != x && s.items[n].expirationId < |s.lists|
    ensures Holds(cfg, Ref(s, x), x)
    ensures Holds(cfg, Supersede(cfg, Ref(s, x), x, n, cacheId, now), x)
    ensures Supersede(cfg, Ref(s, x), x, n, cacheId, now).items[x].refCount >= 1
    ensures Release(cfg, Supersede(cfg, Ref(s, x), x, n, cacheId, now), x) == Supersede(cfg, s, x, n, cacheId, now)
  {
    UnlinkRef(cfg, s, x);
    var u := Unlink(cfg, Ref(s, x), x);
    assert u.items[n] == s.items[n] && |u.lists| == |s.lists|;
    ReleaseLink(cfg, u, x, n, cacheId, now);
  }

  /** The move of a linked record to the front of bucket `e'`, as the
      sweep and `update_expiration` do it. */
  function MoveToBucket(s: MemState, h: Handle, e': nat): MemState
    requires h in s.items && s.items[h].expirationId < |s.lists| && e' < |s.lists|
  {
    var e := s.items[h].expirationId;
    var mid := s.lists[e := Remove(s.lists[e], h)];
    s.(items := s.items[h := s.items[h].(expirationId := e')], lists := mid[e' := [h] + mid[e']])
  }

  lemma MoveOk(cfg: Config, s: MemState, h: Handle, e': nat)
    requires Ok(cfg, s) && IsLinked(s.items, s.index, h) && e' < BUCKETS
    ensures s.items[h].expirationId < |s.lists| && e' < |s.lists|
    ensures var r := MoveToBucket(s, h, e');
      && Ok(cfg, r) && IsLinked(r.items, r.index, h) && OthersKept(s, r, h)
      && r.index == s.index
      && Cached(r) == Cached(s)[KeyOf(s.items[h]) := r.items[h]]
  {
    MemRebucket(cfg, s, MoveToBucket(s, h, e'), h, e');
    LiveSet(s.items, MoveToBucket(s, h, e').items, h, s.items[h].(expirationId := e'));
  }

  /** Moving a record that carries a `do_get` reference is adding the
      reference to the moved record. */
  lemma MoveRef(s: MemState, h: Handle, e': nat)
    requires h in s.items && s.items[h].expirationId < |s.lists| && e' < |s.lists|
    ensures MoveToBucket(Ref(s, h), h, e') == Ref(MoveToBucket(s, h, e'), h)
  {
    var it := s.items[h];
    var e := it.expirationId;
    var mid := s.lists[e := Remove(s.lists[e], h)];
    var t := s.(lists := mid[e' := [h] + mid[e']]);
    var a := it.(refCount := it.refCount + 1);
    RewriteTwice(t, h, a, a.(expirationId := e'));
    RewriteTwice(t, h, it.(expirationId := e'), a.(expirationId := e'));
  }

  /** `do_alloc`'s buffer: one from the free list of the record's class
      when there is one, else newly counted bytes when they stay within the
      limit and the system allocator (`mallocOk`) succeeds, else none. */
  function Insert(cfg: Config, s: MemState, it: Item, mallocOk: bool): Option<MemState>
    requires it.classId < |s.freeCount| && it.classId < |cfg.maxSize|
  {
    var c := it.classId;
    if s.freeCount[c] > 0 then
      Some(s.(items := s.items[s.next := it], next := s.next + 1, freeCount := s.freeCount[c := s.freeCount[c] - 1]))
    else if s.memUsed + cfg.maxSize[c] <= cfg.memLimit && mallocOk then
      Some(s.(items := s.items[s.next := it], next := s.next + 1, memUsed := s.memUsed + cfg.maxSize[c]))
    else None
  }

  /** The free list is used first; new bytes only within the limit; the
      new record is unlinked and the served items are unchanged. */
  lemma InsertOk(cfg: Config, s: MemState, it: Item, mallocOk: bool)
    requires Ok(cfg, s) && ItemOk(cfg.header, cfg.maxSize, cfg.classIdMax, it, s.next, s.next + 1)
    requires it.refCount >= 1
    ensures s.next !in s.items && it.classId < |s.freeCount|
    ensures var r := Insert(cfg, s, it, mallocOk);
      && (r.None? <==> s.freeCount[it.classId] == 0 && (s.memUsed + cfg.maxSize[it.classId] > cfg.memLimit || !mallocOk))
      && (r.Some? ==>
           && Ok(cfg, r.value) && r.value.items == s.items[s.next := it]
           && !IsLinked(r.value.items, r.value.index, s.next) && Cached(r.value) == Cached(s))
  {
    var r := Insert(cfg, s, it, mallocOk);
    if r.Some? {
      MemInsert(cfg, s, r.value, it, r.value.freeCount, r.value.memUsed);
      LiveSet(s.items, r.value.items, s.next, it);
    }
  }

  /** The record `do_alloc` builds for a request: the request's fields, the
      class its size calls for (0 when none does), bucket `e`, the caller's
      one reference, no watchers, and cache id and update time 0 as
      `reset()` left them. */
  function NewRecord(cfg: Config, groupId: u32, key: seq<byte>, flags: u32, expireTime: u32,
                     data: seq<byte>, ext: seq<byte>, e: nat): (it: Item)
    requires TableOk(cfg.maxSize, cfg.classIdMax)
  {
    var size := ItemSize(cfg.header, |key|, |data|, |ext|);
    Item(groupId, key, data, ext, flags, expireTime, e, ClassFor(cfg.maxSize, cfg.classIdMax, size), 1, 0, 0, {})
  }
  /** A record `NewRecord` builds has a class of the table, one
      reference, and fits its buffer at any fresh handle unless no class
      is large enough. */
  lemma NewRecordOk(cfg: Config, groupId: u32, key: seq<byte>, flags: u32, expireTime: u32,
                    data: seq<byte>, ext: seq<byte>, e: nat, h: Handle)
    requires TableOk(cfg.maxSize, cfg.classIdMax) && e < BUCKETS
    ensures var it := NewRecord(cfg, groupId, key, flags, expireTime, data, ext, e);
      && it.classId < |cfg.maxSize| && it.refCount == 1 && it.expirationId == e && it.watchers == {}
      && (it.classId != 0 ==> ItemOk(cfg.header, cfg.maxSize, cfg.classIdMax, it, h, h + 1))
  {
  }

  /** `CALC_ITEM_SIZE` as `do_alloc` (301) and `item_size_ok` (361) use it:
      the sum ends up in a `uint32_t`, so a size of 2^32 bytes or more
      wraps around. */
  function WrappedItemSize(header: nat, keyLen: nat, dataLen: nat, extLen: nat): (r: u32)
    ensures ItemSize(header, keyLen, dataLen, extLen) < U32 ==> r == ItemSize(header, keyLen, dataLen, extLen)
    ensures r <= ItemSize(header, keyLen, dataLen, extLen)
    ensures (ItemSize(header, keyLen, dataLen, extLen) - r) % U32 == 0
  {
    ItemSize(header, keyLen, dataLen, extLen) % U32
  }

  /** The class `do_alloc` and `item_size_ok` look up as written: the class
      of the wrapped size. It agrees with the class of the true size for
      every item under 4 GiB. */
  function ClassAsWritten(cfg: Config, keyLen: nat, dataLen: nat, extLen: nat): (c: nat)
    requires TableOk(cfg.maxSize, cfg.classIdMax)
    ensures c <= cfg.classIdMax
    ensures ItemSize(cfg.header, keyLen, dataLen, extLen) < U32 ==>
      c == ClassFor(cfg.maxSize, cfg.classIdMax, ItemSize(cfg.header, keyLen, dataLen, extLen))
  {
    ClassFor(cfg.maxSize, cfg.classIdMax, WrappedItemSize(cfg.header, keyLen, dataLen, extLen))
  }

  /** The wrap-around lets an oversized item through: a 32-bit data size
      that brings the sum to 2^32 + 1 wraps to 1 byte, so the smallest
      class is handed out for a record that is 4 GiB long, while its true
      size has no class. */
  lemma WrappedSizeOverflowsBuffer(cfg: Config)
    requires TableOk(cfg.maxSize, cfg.classIdMax)
    requires 2 <= cfg.header < U32 && cfg.maxSize[cfg.classIdMax] < U32
    ensures var dataLen := U32 + 1 - cfg.header;
      && dataLen < U32
      && ClassAsWritten(cfg, 0, dataLen, 0) == CLASSID_MIN
      && ItemSize(cfg.header, 0, dataLen, 0) > cfg.maxSize[ClassAsWritten(cfg, 0, dataLen, 0)]
      && ClassFor(cfg.maxSize, cfg.classIdMax, ItemSize(cfg.header, 0, dataLen, 0)) == 0
  {
    var dataLen := U32 + 1 - cfg.header;
    assert WrappedItemSize(cfg.header, 0, dataLen, 0) == 1;
    TableIncreasing(cfg.maxSize, cfg.classIdMax, 0, CLASSID_MIN);
    ClassForUnique(cfg.maxSize, cfg.classIdMax, 1, CLASSID_MIN);
    if CLASSID_MIN < cfg.classIdMax {
      TableIncreasing(cfg.maxSize, cfg.classIdMax, CLASSID_MIN, cfg.classIdMax);
    }
  }

  /** What `do_alloc` needs to know about the pool for class `c`: the
      class has a free list within its cap, a parked buffer is counted in
      `mem_used_`, and the next handle is unused. */
  predicate Spare(cfg: Config, s: MemState, c: nat) {
    && c < |s.freeCount| && c < |cfg.freeMax| && c < |cfg.maxSize|
    && s.freeCount[c] <= cfg.freeMax[c]
    && (s.freeCount[c] > 0 ==> s.memUsed >= cfg.maxSize[c])
    && s.next !in s.items
  }

  lemma MemSpare(cfg: Config, s: MemState, c: nat)
    requires MemOk(cfg, s) && c < |cfg.maxSize|
    ensures Spare(cfg, s, c)
  {
    if s.freeCount[c] > 0 {
      ClassBytesDec(s.freeCount, cfg.maxSize, c);
    }
  }

  /** `do_alloc` finds a buffer of class `c`: a parked one, or new bytes
      within the limit when `malloc` succeeds. */
  predicate Fits(cfg: Config, s: MemState, c: nat, mallocOk: bool) {
    && c != 0 && c < |s.freeCount| && c < |cfg.maxSize|
    && (s.freeCount[c] > 0 || (s.memUsed + cfg.maxSize[c] <= cfg.memLimit && mallocOk))
  }

  /** What allocating `rec` beside the record at `x` needs. */
  predicate Beside(cfg: Config, s: MemState, x: Handle, rec: Item, mallocOk: bool) {
    && Holds(cfg, s, x) && s.items[x].refCount >= 1 && s.items[x].expirationId < |s.lists|
    && Spare(cfg, s, rec.classId) && Fits(cfg, s, rec.classId, mallocOk)
    && rec.refCount == 1 && rec.expirationId < |s.lists|
  }

  /** Allocating beside a record: the new record sits at the next handle, and both it and the other record
      can give up a reference afterwards. */
  lemma InsertHeld(cfg: Config, s: MemState, x: Handle, rec: Item, mallocOk: bool)
    requires Beside(cfg, s, x, rec, mallocOk)
    ensures var t := Insert(cfg, s, rec, mallocOk);
      && t.Some? && t.value.items == s.items[s.next := rec] && t.value.next == s.next + 1
      && t.value.index == s.index && t.value.lists == s.lists && t.value.memUsed >= s.memUsed
      && x != s.next
      && Holds(cfg, t.value, s.next) && Holds(cfg, t.value, x)
      && Holds(cfg, Release(cfg, t.value, s.next), x)
  {
    var t := Insert(cfg, s, rec, mallocOk).value;
    var c := rec.classId;
    var d := Rewrite(t, s.next, rec.(refCount := 0));
    assert Release(cfg, t, s.next) == Free(cfg, d, s.next);
    if s.freeCount[c] > 0 {
      assert t.freeCount[c] < cfg.freeMax[c] && t.memUsed == s.memUsed;
    } else {
      assert t.memUsed == s.memUsed + cfg.maxSize[c];
    }
  }

  /** A record allocated and freed again before it was linked leaves the
      items, the index and the buckets as they were. */
  lemma AllocFree(cfg: Config, s: MemState, it: Item, mallocOk: bool)
    requires Ok(cfg, s) && ItemOk(cfg.header, cfg.maxSize, cfg.classIdMax, it, s.next, s.next + 1) && it.refCount == 1
    requires it.classId < |s.freeCount| && Insert(cfg, s, it, mallocOk).Some?
    ensures var t := Insert(cfg, s, it, mallocOk).value;
      && Holds(cfg, t, s.next) && t.items[s.next].refCount == 1
      && var r := Release(cfg, t, s.next);
      && Ok(cfg, r) && r.items == s.items && r.index == s.index && r.lists == s.lists && Cached(r) == Cached(s)
  {
    InsertOk(cfg, s, it, mallocOk);
    var t := Insert(cfg, s, it, mallocOk).value;
    ReleaseOk(cfg, t, s.next);
    var r := Release(cfg, t, s.next);
    assert r.items == t.items[s.next := it.(refCount := 0)] - {s.next};
    assert s.items[s.next := it.(refCount := 0)] - {s.next} == s.items;
  }

  /** Taking a `do_get` reference and allocating a new record commute. */
  lemma InsertRef(cfg: Config, s: MemState, x: Handle, it: Item, mallocOk: bool)
    requires x in s.items && s.next !in s.items && it.classId < |s.freeCount| && it.classId < |cfg.maxSize|
    ensures Insert(cfg, Ref(s, x), it, mallocOk).Some? == Insert(cfg, s, it, mallocOk).Some?
    ensures Insert(cfg, s, it, mallocOk).Some? ==>
      && x in Insert(cfg, s, it, mallocOk).value.items
      && Insert(cfg, Ref(s, x), it, mallocOk).value == Ref(Insert(cfg, s, it, mallocOk).value, x)
  {
    var y := s.items[x].(refCount := s.items[x].refCount + 1);
    assert s.items[x := y][s.next := it] == s.items[s.next := it][x := y];
  }
}
