/** The transitions of `CacheOps` unfolded branch by branch into the
    sequence of store primitives the manager's methods perform, with what
    each primitive needs at that point. */
module CacheSteps {
  import opened CacheTypes
  import opened Slab
  import opened Expiration
  import opened Store
  import opened Decimal
  import opened CacheState
  import opened CacheOps

  // ---------------- get_touch ----------------

  /** `get_touch` of a cached key under an unknown watch id:
      `do_get_touch`, then the reference is given back. */
  lemma GetTouchRefusedBranch(cfg: Config, s: MemState, k: Key, watchId: u32, live: set<u32>, expireTime: u32)
    requires Ok(cfg, s) && k in s.index && watchId != 0 && watchId !in live
    ensures s.index[k] in s.items
    ensures var x := s.index[k]; var s1 := Touch(s, x, expireTime);
      && Holds(cfg, s1, x) && s1.items[x].refCount >= 1
      && GetTouch(cfg, s, k, watchId, live, expireTime) == Done(Release(cfg, s1, x), Quiet, Touched(None, WatchNotFound))
    ensures Ok(cfg, GetTouch(cfg, s, k, watchId, live, expireTime).s)
  {
    var x := s.index[k];
    var it := s.items[x];
    var touched := it.(refCount := it.refCount + 1, expireTime := expireTime);
    Placed(cfg, s, x);
    RewriteRelease(cfg, s, x, touched);
    var r := GetTouch(cfg, s, k, watchId, live, expireTime);
    assert r == Done(Release(cfg, Rewrite(s, x, touched), x), Quiet, Touched(None, WatchNotFound));
    GetTouchRefused(cfg, s, k, watchId, live, expireTime);
  }

  /** `get_touch` of a cached key handed out: `do_get_touch`, then
      `add_watch`. */
  lemma GetTouchServedBranch(cfg: Config, s: MemState, k: Key, watchId: u32, live: set<u32>, expireTime: u32)
    requires Ok(cfg, s) && k in s.index && (watchId == 0 || watchId in live)
    ensures s.index[k] in s.items
    ensures var x := s.index[k]; var s1 := Touch(s, x, expireTime);
      && x in s1.items
      && GetTouch(cfg, s, k, watchId, live, expireTime) == Done(AddWatch(s1, x, watchId), Quiet, Touched(Some(x), Success))
    ensures Ok(cfg, GetTouch(cfg, s, k, watchId, live, expireTime).s)
  {
    Placed(cfg, s, s.index[k]);
    GetTouchServed(cfg, s, k, watchId, live, expireTime);
  }

  // ---------------- add, set and replace ----------------

  /** A request whose key is cached: the `do_get` reference is taken and
      given back. */
  lemma Regained(cfg: Config, s: MemState, x: Handle)
    requires Ok(cfg, s) && x in s.items
    ensures Holds(cfg, s, x) && Holds(cfg, Ref(s, x), x) && Ref(s, x).items[x].refCount >= 1
    ensures Release(cfg, Ref(s, x), x) == s
  {
    Placed(cfg, s, x);
    RefRelease(cfg, s, x);
  }

  /** `add` of a cached key. */
  lemma AddExistsBranch(cfg: Config, s: MemState, h: Handle, watchId: u32, live: set<u32>, newId: u64, now: u32)
    requires Ok(cfg, s) && h in s.items && !IsLinked(s.items, s.index, h) && KeyOf(s.items[h]) in s.index
    ensures s.index[KeyOf(s.items[h])] in s.items
    ensures Add(cfg, s, h, watchId, live, newId, now) == Done(s, Quiet, Stored(Exists, None))
  {
    AddEffect(cfg, s, h, watchId, live, newId, now);
  }

  /** `add` and `set` of a new key: the request record is linked after
      `add_watch`, unless the watch id is unknown. */
  lemma AdmitBranch(cfg: Config, s: MemState, h: Handle, watchId: u32, live: set<u32>, newId: u64, now: u32)
    requires Ok(cfg, s) && h in s.items && !IsLinked(s.items, s.index, h) && KeyOf(s.items[h]) !in s.index
    ensures var t := AddWatch(s, h, watchId);
      && h in t.items && t.items[h].expirationId < |t.lists|
      && Ok(cfg, Admit(cfg, s, h, watchId, live, newId, now).s)
      && Add(cfg, s, h, watchId, live, newId, now) == Admit(cfg, s, h, watchId, live, newId, now)
      && Set(cfg, s, h, watchId, live, newId, now) == Admit(cfg, s, h, watchId, live, newId, now)
      && (watchId != 0 && watchId !in live ==>
            Admit(cfg, s, h, watchId, live, newId, now) == Done(s, Quiet, Stored(WatchNotFound, None)))
      && (watchId == 0 || watchId in live ==>
            Admit(cfg, s, h, watchId, live, newId, now)
            == Done(Link(t, h, newId, now), Quiet, Stored(Success, Some(newId))))
  {
    Placed(cfg, s, h);
    if watchId == 0 || watchId in live {
      AdmitDone(cfg, s, h, watchId, live, newId, now);
    }
  }

  /** `set` and `replace` of a cached key refused for a CAS token or an
      unknown watch id. */
  lemma OverwriteRefusedBranch(cfg: Config, s: MemState, h: Handle, watchId: u32, live: set<u32>, newId: u64, now: u32)
    requires Ok(cfg, s) && h in s.items && !IsLinked(s.items, s.index, h) && KeyOf(s.items[h]) in s.index
    requires var cur := s.items[s.index[KeyOf(s.items[h])]];
      !Admits(s.items[h].cacheId, cur) || (watchId != 0 && watchId !in live)
    ensures s.index[KeyOf(s.items[h])] in s.items
    ensures var cur := s.items[s.index[KeyOf(s.items[h])]];
      Overwrite(cfg, s, h, watchId, live, newId, now)
      == Done(s, Quiet, Stored(if !Admits(s.items[h].cacheId, cur) then Mismatch else WatchNotFound, None))
  {
    Placed(cfg, s, s.index[KeyOf(s.items[h])]);
    OverwriteRefused(cfg, s, h, watchId, live, newId, now);
  }

  /** What the store steps of an admitted overwrite of the record at `x`
      by the request record `h` need at each step. */
  ghost predicate OverwriteReady(cfg: Config, s: MemState, x: Handle, h: Handle, watchId: u32, newId: u64, now: u32) {
    && x in s.items && x != h
    && var s1 := Ref(s, x);
    && Holds(cfg, s1, x) && s1.items[x].refCount >= 1 && s1.items[x].expirationId < |s1.lists|
    && h in s1.items && s1.items[h].expirationId < |s1.lists|
    && var t := Supersede(cfg, s1, x, h, newId, now);
    && h in t.items
    && var u := AddWatch(t, h, watchId);
    && Holds(cfg, u, x) && u.items[x].refCount >= 1
  }

  /** An admitted overwrite: `do_get`, `do_replace`, `add_watch`, and the
      `do_get` reference given back. */
  lemma OverwriteBranch(cfg: Config, s: MemState, h: Handle, watchId: u32, live: set<u32>, newId: u64, now: u32)
    requires Ok(cfg, s) && h in s.items && !IsLinked(s.items, s.index, h) && KeyOf(s.items[h]) in s.index
    requires Admits(s.items[h].cacheId, s.items[s.index[KeyOf(s.items[h])]]) && (watchId == 0 || watchId in live)
    ensures var x := s.index[KeyOf(s.items[h])];
      && OverwriteReady(cfg, s, x, h, watchId, newId, now)
      && Overwrite(cfg, s, h, watchId, live, newId, now)
         == Done(Release(cfg, AddWatch(Supersede(cfg, Ref(s, x), x, h, newId, now), h, watchId), x),
                 Announce(s.items[x], DataUpdated), Stored(Success, Some(newId)))
    ensures Ok(cfg, Overwrite(cfg, s, h, watchId, live, newId, now).s)
  {
    var x := s.index[KeyOf(s.items[h])];
    Placed(cfg, s, x);
    Placed(cfg, s, h);
    SupersedeRef(cfg, s, x, h, newId, now);
    var t := Supersede(cfg, Ref(s, x), x, h, newId, now);
    SupersedeHeld(cfg, Ref(s, x), x, h, h, newId, now);
    if watchId != 0 {
      ReleaseRewrite(cfg, t, x, h, Watched(t.items[h], watchId));
    }
    OverwriteDone(cfg, s, h, watchId, live, newId, now);
  }

  /** `set` and `replace` of a cached key are the overwrite. */
  lemma SetReplaceCached(cfg: Config, s: MemState, h: Handle, watchId: u32, live: set<u32>, newId: u64, now: u32)
    requires Ok(cfg, s) && h in s.items && !IsLinked(s.items, s.index, h) && KeyOf(s.items[h]) in s.index
    ensures Set(cfg, s, h, watchId, live, newId, now) == Overwrite(cfg, s, h, watchId, live, newId, now)
    ensures Replace(cfg, s, h, watchId, live, newId, now) == Overwrite(cfg, s, h, watchId, live, newId, now)
    ensures Ok(cfg, Overwrite(cfg, s, h, watchId, live, newId, now).s)
  {
    SetEffect(cfg, s, h, watchId, live, newId, now);
  }

  // ---------------- append and prepend ----------------

  /** The shape every allocating path shares: after `do_get`, the pool
      has one free-list count per class. */
  lemma PoolShape(cfg: Config, s: MemState, x: Handle)
    requires Ok(cfg, s) && x in s.items
    ensures |Ref(s, x).freeCount| == |cfg.maxSize|
  {
    Placed(cfg, s, x);
  }

  /** `append` or `prepend` whose CAS token does not match. */
  lemma ExtendMismatchBranch(cfg: Config, s: MemState, h: Handle, front: bool, watchId: u32, live: set<u32>,
                             mallocOk: bool, newId: u64, now: u32)
    requires Ok(cfg, s) && TableOk(cfg.maxSize, cfg.classIdMax) && h in s.items && !IsLinked(s.items, s.index, h)
    requires KeyOf(s.items[h]) in s.index && !Admits(s.items[h].cacheId, s.items[s.index[KeyOf(s.items[h])]])
    ensures var x := s.index[KeyOf(s.items[h])];
      && x in s.items
      && Extend(cfg, s, h, front, watchId, live, mallocOk, newId, now) == Done(Ref(s, x), Quiet, Stored(Mismatch, None))
      && Ok(cfg, Ref(s, x))
  {
    ExtendLeak(cfg, s, h, front, watchId, live, mallocOk, newId, now);
    RefCached(cfg, s, KeyOf(s.items[h]));
  }

  /** `append` or `prepend` admitted: the record it allocates, and the
      OUT_OF_MEMORY outcome when it does not fit. */
  lemma ExtendAdmitted(cfg: Config, s: MemState, h: Handle, front: bool, watchId: u32, live: set<u32>,
                       mallocOk: bool, newId: u64, now: u32)
    requires Ok(cfg, s) && TableOk(cfg.maxSize, cfg.classIdMax) && h in s.items && !IsLinked(s.items, s.index, h)
    requires KeyOf(s.items[h]) in s.index && Admits(s.items[h].cacheId, s.items[s.index[KeyOf(s.items[h])]])
    ensures var x := s.index[KeyOf(s.items[h])]; var it, cur := s.items[h], s.items[x];
      var rec := Joined(cfg, it, cur, front, now);
      && x in s.items && x != h && Holds(cfg, Ref(s, x), x) && Ref(s, x).items[x].refCount >= 1
      && rec == NewRecord(cfg, it.groupId, it.key, cur.flags, cur.expireTime,
                          if front then it.data + cur.data else cur.data + it.data, cur.ext, Bucket(now, cur.expireTime))
      && (!Fits(cfg, Ref(s, x), rec.classId, mallocOk) ==>
            && Release(cfg, Ref(s, x), x) == s
            && Extend(cfg, s, h, front, watchId, live, mallocOk, newId, now) == Done(s, Quiet, Stored(OutOfMemory, None)))
  {
    var x := s.index[KeyOf(s.items[h])];
    Regained(cfg, s, x);
    ExtendEffect(cfg, s, h, front, watchId, live, mallocOk, newId, now);
    assert Cached(s)[KeyOf(s.items[h])] == s.items[x];
  }

  /** `append` or `prepend` that found a buffer: `Beside` holds of the
      store after `do_get`, and the outcome is the discard or the graft. */
  lemma ExtendFitted(cfg: Config, s: MemState, h: Handle, front: bool, watchId: u32, live: set<u32>,
                     mallocOk: bool, newId: u64, now: u32)
    requires Ok(cfg, s) && TableOk(cfg.maxSize, cfg.classIdMax) && h in s.items && !IsLinked(s.items, s.index, h)
    requires KeyOf(s.items[h]) in s.index
    requires var cur := s.items[s.index[KeyOf(s.items[h])]];
      && Admits(s.items[h].cacheId, cur) && Fits(cfg, s, Joined(cfg, s.items[h], cur, front, now).classId, mallocOk)
    ensures var x := s.index[KeyOf(s.items[h])]; var cur := s.items[x];
      var rec := Joined(cfg, s.items[h], cur, front, now);
      && x in s.items && x != h && Beside(cfg, Ref(s, x), x, rec, mallocOk) && Ref(s, x).items[x].refCount >= 2
      && h in Ref(s, x).items
      && var r := Extend(cfg, s, h, front, watchId, live, mallocOk, newId, now);
      && Ok(cfg, r.s)
      && (watchId != 0 && watchId !in live ==>
            r == Done(Discard(cfg, Ref(s, x), x, rec, mallocOk), Quiet, Stored(WatchNotFound, None)))
      && (watchId == 0 || watchId in live ==>
            r == Done(Graft(cfg, Ref(s, x), x, h, rec, front, watchId, mallocOk, newId, now),
                      Announce(cur, DataUpdated), Stored(Success, Some(newId))))
  {
    var x := s.index[KeyOf(s.items[h])];
    var rec := Joined(cfg, s.items[h], s.items[x], front, now);
    ExtendRecord(cfg, s, h, front, mallocOk, now);
    Placed(cfg, s, x);
    GraftShape(cfg, s, x, h, rec, front, watchId, mallocOk, newId, now);
    ExtendEffect(cfg, s, h, front, watchId, live, mallocOk, newId, now);
  }

  /** The steps of the WATCH_NOT_FOUND path after the allocation: the new
      record's reference, then the `do_get` reference, given back. */
  lemma DiscardSteps(cfg: Config, s: MemState, x: Handle, rec: Item, mallocOk: bool)
    requires Beside(cfg, s, x, rec, mallocOk)
    ensures var t := Insert(cfg, s, rec, mallocOk);
      && t.Some? && Holds(cfg, t.value, s.next) && t.value.items[s.next].refCount >= 1
      && var u := Release(cfg, t.value, s.next);
      && Holds(cfg, u, x) && u.items[x].refCount >= 1
      && Discard(cfg, s, x, rec, mallocOk) == Release(cfg, u, x)
  {
    InsertHeld(cfg, s, x, rec, mallocOk);
  }

  /** The steps of the success path after the allocation, for `Joint`
      and the two references given back. */
  lemma GraftSteps(cfg: Config, s: MemState, x: Handle, h: Handle, rec: Item, front: bool, watchId: u32,
                   mallocOk: bool, newId: u64, now: u32)
    requires Beside(cfg, s, x, rec, mallocOk) && s.items[x].refCount >= 2 && h in s.items && h != x
    ensures var t := Insert(cfg, s, rec, mallocOk); var n := s.next;
      && t.Some? && n != x && n != h && n in t.value.items && h in t.value.items
      && t.value.items[x] == s.items[x] && t.value.items[n].expirationId < |t.value.lists|
      && Holds(cfg, t.value, x) && t.value.items[x].refCount >= 2 && t.value.items[x].expirationId < |t.value.lists|
      && var tw := AddWatch(t.value, h, watchId);
      && Holds(cfg, tw, x) && tw.items[x] == t.value.items[x] && tw.items[n] == t.value.items[n] && |tw.lists| == |t.value.lists|
      && var a := Supersede(cfg, t.value, x, n, newId, now);
      && h in a.items
      && var j := Joint(cfg, t.value, x, n, h, front, watchId, newId, now);
      && Holds(cfg, j, n) && j.items[n].refCount >= 1
      && var u := Release(cfg, j, n);
      && Holds(cfg, u, x) && u.items[x].refCount >= 1
      && Graft(cfg, s, x, h, rec, front, watchId, mallocOk, newId, now) == Release(cfg, u, x)
  {
    InsertHeld(cfg, s, x, rec, mallocOk);
    var t := Insert(cfg, s, rec, mallocOk).value;
    var n := s.next;
    JointHeld(cfg, t, x, n, h, front, watchId, newId, now);
    SupersedeHeld(cfg, t, x, n, h, newId, now);
    var j := Joint(cfg, t, x, n, h, front, watchId, newId, now);
    assert Holds(cfg, j, n) by {
      assert j.items[n].classId == rec.classId;
    }
  }

  // ---------------- delta ----------------

  /** `delta` of a cached key refused for its CAS token. */
  lemma DeltaMismatchBranch(cfg: Config, s: MemState, k: Key, incr: bool, d: int, cas: u64,
                            mallocOk: bool, newId: u64, now: u32)
    requires Ok(cfg, s) && TableOk(cfg.maxSize, cfg.classIdMax) && k in s.index && !Admits(cas, s.items[s.index[k]])
    ensures s.index[k] in s.items
    ensures Delta(cfg, s, k, incr, d, cas, mallocOk, newId, now) == Done(s, Quiet, Counted(Mismatch, 0, 0))
  {
    Regained(cfg, s, s.index[k]);
  }

  /** `delta` admitted whose text keeps its length. */
  lemma DeltaInPlaceBranch(cfg: Config, s: MemState, k: Key, incr: bool, d: int, cas: u64,
                           mallocOk: bool, newId: u64, now: u32)
    requires Ok(cfg, s) && TableOk(cfg.maxSize, cfg.classIdMax) && k in s.index
    requires var cur := s.items[s.index[k]];
      Admits(cas, cur) && |FormatInt(Counter(cur.data, incr, d))| == |cur.data|
    ensures var x := s.index[k]; var cur := s.items[x]; var v := Counter(cur.data, incr, d);
      var s1 := Ref(s, x);
      var u := Rewrite(s1, x, s1.items[x].(data := FormatInt(v), cacheId := newId, lastUpdateTime := now));
      && x in s.items && Holds(cfg, u, x) && u.items[x].refCount >= 1
      && Delta(cfg, s, k, incr, d, cas, mallocOk, newId, now) == Done(Release(cfg, u, x), Quiet, Counted(Success, newId, v))
      && Ok(cfg, Release(cfg, u, x))
  {
    Placed(cfg, s, s.index[k]);
    DeltaEffect(cfg, s, k, incr, d, cas, mallocOk, newId, now);
  }

  /** `delta` admitted whose text changes length: the record it allocates,
      and the OUT_OF_MEMORY outcome when it does not fit. */
  lemma DeltaResized(cfg: Config, s: MemState, k: Key, incr: bool, d: int, cas: u64,
                     mallocOk: bool, newId: u64, now: u32)
    requires Ok(cfg, s) && TableOk(cfg.maxSize, cfg.classIdMax) && k in s.index
    requires var cur := s.items[s.index[k]];
      Admits(cas, cur) && |FormatInt(Counter(cur.data, incr, d))| != |cur.data|
    ensures var x := s.index[k]; var cur := s.items[x]; var v := Counter(cur.data, incr, d);
      var rec := Recounted(cfg, cur, FormatInt(v), now);
      && x in s.items && Holds(cfg, Ref(s, x), x) && Ref(s, x).items[x].refCount >= 1
      && rec == NewRecord(cfg, cur.groupId, cur.key, cur.flags, cur.expireTime, FormatInt(v), cur.ext, Bucket(now, cur.expireTime))
      && (!Fits(cfg, Ref(s, x), rec.classId, mallocOk) ==>
            && Release(cfg, Ref(s, x), x) == s
            && Delta(cfg, s, k, incr, d, cas, mallocOk, newId, now) == Done(s, Quiet, Counted(OutOfMemory, cas, v)))
  {
    Regained(cfg, s, s.index[k]);
  }

  /** `delta` admitted whose new text found a buffer. */
  lemma DeltaFitted(cfg: Config, s: MemState, k: Key, incr: bool, d: int, cas: u64,
                    mallocOk: bool, newId: u64, now: u32)
    requires Ok(cfg, s) && TableOk(cfg.maxSize, cfg.classIdMax) && k in s.index
    requires var cur := s.items[s.index[k]]; var text := FormatInt(Counter(cur.data, incr, d));
      && Admits(cas, cur) && |text| != |cur.data| && Fits(cfg, s, Recounted(cfg, cur, text, now).classId, mallocOk)
    ensures var x := s.index[k]; var cur := s.items[x]; var v := Counter(cur.data, incr, d);
      var rec := Recounted(cfg, cur, FormatInt(v), now);
      && x in s.items && Beside(cfg, Ref(s, x), x, rec, mallocOk) && Ref(s, x).items[x].refCount >= 2
      && Delta(cfg, s, k, incr, d, cas, mallocOk, newId, now)
         == Done(Renew(cfg, Ref(s, x), x, rec, mallocOk, newId, now), Announce(cur, DataUpdated), Counted(Success, newId, v))
      && Ok(cfg, Renew(cfg, Ref(s, x), x, rec, mallocOk, newId, now))
  {
    DeltaAccepted(cfg, s, k, incr, d, cas, mallocOk, newId, now);
    DeltaRenewed(cfg, s, k, incr, d, cas, mallocOk, newId, now);
  }

  /** The steps of the reallocating path after the allocation: the
      `do_replace`, then the two references given back. */
  lemma RenewSteps(cfg: Config, s: MemState, x: Handle, rec: Item, mallocOk: bool, newId: u64, now: u32)
    requires Beside(cfg, s, x, rec, mallocOk) && s.items[x].refCount >= 2
    ensures var t := Insert(cfg, s, rec, mallocOk); var n := s.next;
      && t.Some? && n != x && n in t.value.items && t.value.items[n].expirationId < |t.value.lists|
      && t.value.items[x] == s.items[x]
      && Holds(cfg, t.value, x) && t.value.items[x].refCount >= 2 && t.value.items[x].expirationId < |t.value.lists|
      && var j := Supersede(cfg, t.value, x, n, newId, now);
      && Holds(cfg, j, n) && j.items[n].refCount >= 1
      && var u := Release(cfg, j, n);
      && Holds(cfg, u, x) && u.items[x].refCount >= 1
      && Renew(cfg, s, x, rec, mallocOk, newId, now) == Release(cfg, u, x)
  {
    InsertHeld(cfg, s, x, rec, mallocOk);
    var t := Insert(cfg, s, rec, mallocOk).value;
    var n := s.next;
    SupersedeHeld(cfg, t, x, n, n, newId, now);
    var j := Supersede(cfg, t, x, n, newId, now);
    assert Holds(cfg, j, n) by {
      assert j.items[n].classId == rec.classId;
    }
  }

  // ---------------- remove, update_flags, update_expiration ----------------

  /** An admitted `remove`: `do_get`, `do_unlink`, and the reference given
      back. */
  lemma RemoveBranch(cfg: Config, s: MemState, k: Key, cas: u64)
    requires Ok(cfg, s) && k in s.index && Admits(cas, s.items[s.index[k]])
    ensures var x := s.index[k]; var s1 := Ref(s, x);
      && x in s.items && Holds(cfg, s1, x) && s1.items[x].refCount >= 2 && s1.items[x].expirationId < |s1.lists|
      && var u := Unlink(cfg, s1, x);
      && Holds(cfg, u, x) && u.items[x].refCount >= 1
      && Remove(cfg, s, k, cas) == Done(Release(cfg, u, x), Announce(s.items[x], Deleted), Success)
      && Ok(cfg, Release(cfg, u, x))
  {
    var x := s.index[k];
    Placed(cfg, s, x);
    UnlinkRef(cfg, s, x);
    RemoveDone(cfg, s, k, cas);
  }

  /** What the store steps of an admitted `update_flags` on the record at
      `x` need. */
  ghost predicate ReflagReady(cfg: Config, s: MemState, x: Handle, flags: u32, live: set<u32>, newId: u64, now: u32) {
    && x in s.items
    && var u := Reflag(s, x, flags, live, newId, now);
    && Holds(cfg, u, x) && u.items[x].refCount >= 1
  }

  /** An admitted `update_flags`: `do_get`, the notification, the rewrite,
      and the reference given back. */
  lemma UpdateFlagsBranch(cfg: Config, s: MemState, k: Key, cas: u64, flags: u32, live: set<u32>, newId: u64, now: u32)
    requires Ok(cfg, s) && k in s.index && Admits(cas, s.items[s.index[k]])
    ensures var x := s.index[k];
      && ReflagReady(cfg, s, x, flags, live, newId, now)
      && var r := Release(cfg, Reflag(s, x, flags, live, newId, now), x);
      && UpdateFlags(cfg, s, k, cas, flags, live, newId, now) == Done(r, Announce(s.items[x], BaseInfoUpdated), Updated(true, newId))
      && Ok(cfg, r)
  {
    Placed(cfg, s, s.index[k]);
    UpdateFlagsEffect(cfg, s, k, cas, flags, live, newId, now);
  }

  /** A refused `update_flags` keeps the `do_get` reference. */
  lemma UpdateFlagsLeakBranch(cfg: Config, s: MemState, k: Key, cas: u64, flags: u32, live: set<u32>, newId: u64, now: u32)
    requires Ok(cfg, s) && k in s.index && !Admits(cas, s.items[s.index[k]])
    ensures var x := s.index[k];
      && x in s.items
      && UpdateFlags(cfg, s, k, cas, flags, live, newId, now) == Done(Ref(s, x), Quiet, Updated(false, s.items[x].cacheId))
      && Ok(cfg, Ref(s, x))
  {
    UpdateFlagsEffect(cfg, s, k, cas, flags, live, newId, now);
  }

  /** What the store steps of an admitted `update_expiration` on the
      record at `x` need, for the new bucket `e`. */
  ghost predicate RedateReady(cfg: Config, s: MemState, x: Handle, e: nat, expireTime: u32) {
    && Holds(cfg, s, x) && s.items[x].refCount >= 1
    && s.items[x].expirationId < |s.lists| && e < |s.lists|
    && var m := Filed(Ref(s, x), x, e);
    && x in m.items && m.items[x].expirationId == e
    && var u := Rewrite(m, x, m.items[x].(expireTime := expireTime));
    && Holds(cfg, u, x) && u.items[x].refCount >= 1
  }

  /** An admitted `update_expiration`: `do_get`, the move when the bucket
      changes, the new deadline, and the reference given back. */
  lemma UpdateExpirationBranch(cfg: Config, s: MemState, k: Key, cas: u64, expireTime: u32, now: u32)
    requires Ok(cfg, s) && k in s.index && Admits(cas, s.items[s.index[k]])
    ensures var x := s.index[k]; var e := Bucket(now, expireTime);
      && RedateReady(cfg, s, x, e, expireTime)
      && UpdateExpiration(cfg, s, k, cas, expireTime, now)
         == Done(Redated(cfg, s, x, e, expireTime), Quiet, Updated(true, s.items[x].cacheId))
      && Ok(cfg, Redated(cfg, s, x, e, expireTime))
  {
    var x := s.index[k];
    Placed(cfg, s, x);
    RedateSteps(cfg, s, x, Bucket(now, expireTime), expireTime);
    UpdateExpirationDone(cfg, s, k, cas, expireTime, now);
  }

  /** The steps of `Redated` keep the record's buffer held. */
  lemma RedateSteps(cfg: Config, s: MemState, x: Handle, e: nat, expireTime: u32)
    requires Holds(cfg, s, x) && s.items[x].refCount >= 1
    requires s.items[x].expirationId < |s.lists| && e < |s.lists|
    ensures RedateReady(cfg, s, x, e, expireTime)
  {
    var s1 := Ref(s, x);
    if e != s1.items[x].expirationId {
      assert Filed(s1, x, e) == MoveToBucket(s1, x, e);
    }
  }

  /** A refused `update_expiration` keeps the `do_get` reference. */
  lemma UpdateExpirationLeakBranch(cfg: Config, s: MemState, k: Key, cas: u64, expireTime: u32, now: u32)
    requires Ok(cfg, s) && k in s.index && !Admits(cas, s.items[s.index[k]])
    ensures var x := s.index[k];
      && x in s.items
      && UpdateExpiration(cfg, s, k, cas, expireTime, now) == Done(Ref(s, x), Quiet, Updated(false, U64 - 1))
      && Ok(cfg, Ref(s, x))
  {
    UpdateExpirationEffect(cfg, s, k, cas, expireTime, now);
  }
}
