/** The manager's public operations as transitions of the store. Each takes
    the store and the request and yields the new store, the notification
    it owes the watches and its results; the methods of `CacheMgr` apply
    them. The watch ids that exist (`live`), the current time (`now`) and
    the cache id `get_cache_id` would hand out next (`newId`) are
    parameters. */
module CacheOps {
  import opened CacheTypes
  import opened Slab
  import opened Expiration
  import opened Store
  import opened Watch
  import opened Decimal
  import opened CacheState

  /** The notification an operation owes: one `notify_watch` call with the
      watch ids and the cache id of an item, or none. */
  datatype Note = Quiet | Tell(ids: set<u32>, cacheId: u64, kind: NotifyType)

  /** The outcome of an operation: the new store, the note, the results. */
  datatype Done<T> = Done(s: MemState, note: Note, out: T)

  /** What `do_unlink` tells about a record: nothing when it has no watch
      set. */
  function Announce(it: Item, kind: NotifyType): Note {
    if it.watchers == {} then Quiet else Tell(it.watchers, it.cacheId, kind)
  }

  /** The watch states once a note is delivered. */
  function Told(m: map<u32, WatchState>, n: Note): map<u32, WatchState>
    requires forall id :: id in m ==> Parallel(m[id])
  {
    if n.Quiet? then m else NotifyAll(m, n.ids, n.cacheId, n.kind)
  }

  /** The watch states once the notes are delivered in order. */
  ghost function ToldAll(m: map<u32, WatchState>, notes: seq<Note>): (r: map<u32, WatchState>)
    requires forall id :: id in m ==> Parallel(m[id])
    ensures r.Keys == m.Keys
    ensures forall id :: id in r ==> Parallel(r[id])
    decreases |notes|
  {
    if notes == [] then m
    else
      var before := ToldAll(m, notes[..|notes| - 1]);
      Told(before, notes[|notes| - 1])
  }

  /** Delivering no note. */
  lemma ToldNothing(m: map<u32, WatchState>)
    requires forall id :: id in m ==> Parallel(m[id])
    ensures ToldAll(m, []) == m
  {
  }

  /** Delivering one more note. */
  lemma ToldOneMore(m: map<u32, WatchState>, notes: seq<Note>, n: Note)
    requires forall id :: id in m ==> Parallel(m[id])
    ensures ToldAll(m, notes + [n]) == Told(ToldAll(m, notes), n)
  {
    assert (notes + [n])[..|notes|] == notes;
  }

  /** Delivering a single note. */
  lemma ToldOne(m: map<u32, WatchState>, n: Note)
    requires forall id :: id in m ==> Parallel(m[id])
    ensures ToldAll(m, [n]) == Told(m, n)
  {
    assert [] + [n] == [n];
    ToldOneMore(m, [], n);
  }

  /** Delivering two batches of notes in turn. */
  lemma {:induction false} ToldAllAppend(m: map<u32, WatchState>, a: seq<Note>, b: seq<Note>)
    requires forall id :: id in m ==> Parallel(m[id])
    ensures ToldAll(m, a + b) == ToldAll(ToldAll(m, a), b)
    decreases |b|
  {
    if b != [] {
      var b' := b[..|b| - 1];
      assert a + b == (a + b') + [b[|b| - 1]];
      assert b == b' + [b[|b| - 1]];
      ToldOneMore(m, a + b', b[|b| - 1]);
      ToldAllAppend(m, a, b');
      ToldOneMore(ToldAll(m, a), b', b[|b| - 1]);
    } else {
      assert a + b == a;
    }
  }

  /** `add_watch` when `watchId` is not 0. */
  function Watched(it: Item, watchId: u32): Item {
    if watchId == 0 then it else it.(watchers := it.watchers + {watchId})
  }

  /** The check of the `do_get` overload with expiration: the record has
      a deadline that has passed. */
  predicate HasExpired(it: Item, now: u32) {
    it.expireTime != 0 && it.expireTime <= now
  }

  /** The remaining lifetime that overload reports (0: never expires). */
  function Remaining(it: Item, now: u32): u32 {
    if it.expireTime == 0 || it.expireTime <= now then 0 else it.expireTime - now
  }

  /** A CAS token `cas` admits the record: 0 always does. */
  predicate Admits(cas: u64, it: Item) {
    cas == 0 || cas == it.cacheId
  }

  // ---------------- lookups ----------------

  /** The results of `get`: the item handed to the caller (who then holds
      one reference to it), its remaining lifetime (0 where `get` leaves
      it unwritten), and the reason. */
  datatype Fetched = Fetched(item: Option<Handle>, expiration: u32, reason: Reason)

  /** `get` (508-544) with the `do_get` overload it calls (454-480): an
      expired record is unlinked with EXPIRED and reported missing; a live
      one gets a reference for the caller and, when `watchId` names a
      watch, that watch in its set; an unknown watch id gives the
      reference back and fails with WATCH_NOT_FOUND. */
  function Get(cfg: Config, s: MemState, k: Key, watchId: u32, live: set<u32>, now: u32): Done<Fetched>
    requires Ok(cfg, s)
  {
    if k !in s.index then Done(s, Quiet, Fetched(None, 0, NotFound))
    else
      var x := s.index[k];
      var it := s.items[x];
      Placed(cfg, s, x);
      if HasExpired(it, now) then
        Done(Unlink(cfg, s, x), Announce(it, Expired), Fetched(None, 0, NotFound))
      else
        var s1 := Ref(s, x);
        if watchId != 0 && watchId !in live then
          Done(Release(cfg, s1, x), Quiet, Fetched(None, Remaining(it, now), WatchNotFound))
        else
          Done(Rewrite(s1, x, Watched(it, watchId).(refCount := it.refCount + 1)), Quiet,
               Fetched(Some(x), Remaining(it, now), Success))
  }

  /** `get` on a record past its deadline unlinks it. */
  lemma GetExpired(cfg: Config, s: MemState, k: Key, watchId: u32, live: set<u32>, now: u32)
    requires Ok(cfg, s) && k in s.index && HasExpired(s.items[s.index[k]], now)
    ensures var r := Get(cfg, s, k, watchId, live, now); var it := Cached(s)[k];
      && Ok(cfg, r.s) && r.out == Fetched(None, 0, NotFound) && r.note == Announce(it, Expired)
      && Cached(r.s) == Cached(s) - {k}
  {
    var x := s.index[k];
    Placed(cfg, s, x);
    assert Get(cfg, s, k, watchId, live, now).s == Unlink(cfg, s, x);
    UnlinkOk(cfg, s, x);
  }

  /** `get` with an unknown watch id gives its reference back. */
  lemma GetRefused(cfg: Config, s: MemState, k: Key, watchId: u32, live: set<u32>, now: u32)
    requires Ok(cfg, s) && k in s.index && !HasExpired(s.items[s.index[k]], now)
    requires watchId != 0 && watchId !in live
    ensures Get(cfg, s, k, watchId, live, now)
         == Done(s, Quiet, Fetched(None, Remaining(Cached(s)[k], now), WatchNotFound))
  {
    var x := s.index[k];
    Placed(cfg, s, x);
    RefRelease(cfg, s, x);
  }

  /** `get` of a live record hands it out with one more reference. */
  lemma GetServed(cfg: Config, s: MemState, k: Key, watchId: u32, live: set<u32>, now: u32)
    requires Ok(cfg, s) && k in s.index && !HasExpired(s.items[s.index[k]], now)
    requires watchId == 0 || watchId in live
    ensures Ok(cfg, Get(cfg, s, k, watchId, live, now).s)
    ensures Get(cfg, s, k, watchId, live, now).note == Quiet
    ensures Get(cfg, s, k, watchId, live, now).out == Fetched(Some(s.index[k]), Remaining(Cached(s)[k], now), Success)
    ensures Cached(Get(cfg, s, k, watchId, live, now).s) == Cached(s)[k := Watched(Cached(s)[k], watchId).(refCount := Cached(s)[k].refCount + 1)]
    ensures s.index[k] in Get(cfg, s, k, watchId, live, now).s.items
    ensures Get(cfg, s, k, watchId, live, now).s.items[s.index[k]] == Cached(Get(cfg, s, k, watchId, live, now).s)[k]
  {
    var x := s.index[k];
    var it := s.items[x];
    var it' := Watched(it, watchId).(refCount := it.refCount + 1);
    RewriteTwice(s, x, it.(refCount := it.refCount + 1), it');
    var r := Get(cfg, s, k, watchId, live, now);
    assert r.s == Rewrite(s, x, it');
    assert KeyOf(it') == k && IsLinked(s.items, s.index, x) && Cached(s)[k] == it;
    RewriteOk(cfg, s, x, it');
    assert Cached(r.s) == Cached(s)[k := it'];
    assert it' == Watched(Cached(s)[k], watchId).(refCount := Cached(s)[k].refCount + 1);
    assert Cached(r.s) == Cached(s)[k := Watched(Cached(s)[k], watchId).(refCount := Cached(s)[k].refCount + 1)];
    assert r.s.items[x] == it' == Cached(r.s)[k];
  }

  /** What `get` does to the served items and what it reports. */
  lemma GetEffect(cfg: Config, s: MemState, k: Key, watchId: u32, live: set<u32>, now: u32)
    requires Ok(cfg, s)
    ensures var r := Get(cfg, s, k, watchId, live, now);
      && Ok(cfg, r.s)
      && (k !in Cached(s) ==> r == Done(s, Quiet, Fetched(None, 0, NotFound)))
      && (k in Cached(s) && HasExpired(Cached(s)[k], now) ==>
           && r.out == Fetched(None, 0, NotFound) && r.note == Announce(Cached(s)[k], Expired)
           && Cached(r.s) == Cached(s) - {k})
      && (k in Cached(s) && !HasExpired(Cached(s)[k], now) && watchId != 0 && watchId !in live ==>
           r == Done(s, Quiet, Fetched(None, Remaining(Cached(s)[k], now), WatchNotFound)))
      && (k in Cached(s) && !HasExpired(Cached(s)[k], now) && (watchId == 0 || watchId in live) ==>
           var it := Cached(s)[k];
           && r.note == Quiet && r.out == Fetched(Some(s.index[k]), Remaining(it, now), Success)
           && Cached(r.s) == Cached(s)[k := Watched(it, watchId).(refCount := it.refCount + 1)])
      && (r.out.item.Some? ==> r.out.item.value in r.s.items && r.s.items[r.out.item.value] == Cached(r.s)[k])
  {
    if k in s.index {
      assert Cached(s)[k] == s.items[s.index[k]];
      if HasExpired(s.items[s.index[k]], now) {
        GetExpired(cfg, s, k, watchId, live, now);
      } else if watchId != 0 && watchId !in live {
        GetRefused(cfg, s, k, watchId, live, now);
      } else {
        GetServed(cfg, s, k, watchId, live, now);
      }
    }
  }

  /** The results of `get_touch`. */
  datatype Touched = Touched(item: Option<Handle>, reason: Reason)

  /** `do_get_touch` (482-497) on the record at `x`: a reference for the
      caller and the new absolute deadline. */
  function Touch(s: MemState, x: Handle, expireTime: u32): MemState
    requires x in s.items
  {
    Rewrite(s, x, s.items[x].(refCount := s.items[x].refCount + 1, expireTime := expireTime))
  }

  /** `get_touch` (546-574) with `do_get_touch` (482-497): the record gets
      a reference for the caller and the new absolute deadline
      `expireTime`, and stays in its bucket; the watch id is handled as in
      `get`, and an unknown one still leaves the new deadline behind. */
  function GetTouch(cfg: Config, s: MemState, k: Key, watchId: u32, live: set<u32>, expireTime: u32): Done<Touched>
    requires Ok(cfg, s)
  {
    if k !in s.index then Done(s, Quiet, Touched(None, NotFound))
    else
      var x := s.index[k];
      Placed(cfg, s, x);
      var s1 := Touch(s, x, expireTime);
      if watchId != 0 && watchId !in live then
        Done(Release(cfg, s1, x), Quiet, Touched(None, WatchNotFound))
      else
        Done(AddWatch(s1, x, watchId), Quiet, Touched(Some(x), Success))
  }

  /** `get_touch` with an unknown watch id gives its reference back but
      keeps the new deadline. */
  lemma GetTouchRefused(cfg: Config, s: MemState, k: Key, watchId: u32, live: set<u32>, expireTime: u32)
    requires Ok(cfg, s) && k in s.index && watchId != 0 && watchId !in live
    ensures Ok(cfg, GetTouch(cfg, s, k, watchId, live, expireTime).s)
    ensures GetTouch(cfg, s, k, watchId, live, expireTime).out == Touched(None, WatchNotFound)
    ensures Cached(GetTouch(cfg, s, k, watchId, live, expireTime).s)
         == Cached(s)[k := Cached(s)[k].(expireTime := expireTime)]
  {
    var x := s.index[k];
    var it := s.items[x];
    var touched := it.(refCount := it.refCount + 1, expireTime := expireTime);
    var it' := it.(expireTime := expireTime);
    Placed(cfg, s, x);
    RewriteRelease(cfg, s, x, touched);
    assert touched.(refCount := touched.refCount - 1) == it';
    var r := GetTouch(cfg, s, k, watchId, live, expireTime);
    assert r.s == Rewrite(s, x, it');
    assert KeyOf(it') == k && IsLinked(s.items, s.index, x) && Cached(s)[k] == it;
    RewriteOk(cfg, s, x, it');
    assert Cached(r.s) == Cached(s)[k := it'];
    assert it' == Cached(s)[k].(expireTime := expireTime);
  }

  /** `get_touch` of a record hands it out with the new deadline. */
  lemma GetTouchServed(cfg: Config, s: MemState, k: Key, watchId: u32, live: set<u32>, expireTime: u32)
    requires Ok(cfg, s) && k in s.index && (watchId == 0 || watchId in live)
    ensures Ok(cfg, GetTouch(cfg, s, k, watchId, live, expireTime).s)
    ensures GetTouch(cfg, s, k, watchId, live, expireTime).out == Touched(Some(s.index[k]), Success)
    ensures Cached(GetTouch(cfg, s, k, watchId, live, expireTime).s)
         == Cached(s)[k := Watched(Cached(s)[k], watchId).(refCount := Cached(s)[k].refCount + 1, expireTime := expireTime)]
    ensures s.index[k] in GetTouch(cfg, s, k, watchId, live, expireTime).s.items
    ensures GetTouch(cfg, s, k, watchId, live, expireTime).s.items[s.index[k]]
         == Cached(GetTouch(cfg, s, k, watchId, live, expireTime).s)[k]
  {
    var x := s.index[k];
    var it := s.items[x];
    var touched := it.(refCount := it.refCount + 1, expireTime := expireTime);
    var it' := Watched(touched, watchId);
    RewriteTwice(s, x, touched, it');
    var r := GetTouch(cfg, s, k, watchId, live, expireTime);
    assert r.s == Rewrite(s, x, it');
    assert KeyOf(it') == k && IsLinked(s.items, s.index, x) && Cached(s)[k] == it;
    RewriteOk(cfg, s, x, it');
    assert Cached(r.s) == Cached(s)[k := it'];
    assert it' == Watched(Cached(s)[k], watchId).(refCount := Cached(s)[k].refCount + 1, expireTime := expireTime);
    assert r.s.items[x] == it' == Cached(r.s)[k];
  }

  /** What `get_touch` does: no watch is told, and the record keeps its
      bucket whatever its new deadline. */
  lemma GetTouchEffect(cfg: Config, s: MemState, k: Key, watchId: u32, live: set<u32>, expireTime: u32)
    requires Ok(cfg, s)
    ensures var r := GetTouch(cfg, s, k, watchId, live, expireTime);
      && Ok(cfg, r.s) && r.note == Quiet
      && (k !in Cached(s) ==> r == Done(s, Quiet, Touched(None, NotFound)))
      && (k in Cached(s) && watchId != 0 && watchId !in live ==>
           && r.out == Touched(None, WatchNotFound)
           && Cached(r.s) == Cached(s)[k := Cached(s)[k].(expireTime := expireTime)])
      && (k in Cached(s) && (watchId == 0 || watchId in live) ==>
           var it := Cached(s)[k];
           && r.out == Touched(Some(s.index[k]), Success)
           && Cached(r.s) == Cached(s)[k := Watched(it, watchId).(refCount := it.refCount + 1, expireTime := expireTime)])
      && (k in Cached(s) ==> k in Cached(r.s) && Cached(r.s)[k].expirationId == Cached(s)[k].expirationId)
      && (r.out.item.Some? ==> r.out.item.value in r.s.items && r.s.items[r.out.item.value] == Cached(r.s)[k])
  {
    if k in s.index {
      if watchId != 0 && watchId !in live {
        GetTouchRefused(cfg, s, k, watchId, live, expireTime);
      } else {
        GetTouchServed(cfg, s, k, watchId, live, expireTime);
      }
    }
  }

  // ---------------- storing a request record ----------------

  /** The results of `add`, `set`, `replace`, `append` and `prepend`: the
      reason and the cache id written back on success. */
  datatype Stored = Stored(reason: Reason, cacheId: Option<u64>)

  /** The store with `add_watch(watchId)` done on the record at `h`
      (nothing when `watchId` is 0). */
  function AddWatch(s: MemState, h: Handle, watchId: u32): MemState
    requires h in s.items
  {
    if watchId == 0 then s else Rewrite(s, h, Watched(s.items[h], watchId))
  }

  /** `add_watch` on a linked record changes only that record's watches. */
  lemma AddWatchOk(cfg: Config, s: MemState, h: Handle, watchId: u32)
    requires Ok(cfg, s) && IsLinked(s.items, s.index, h)
    ensures var r := AddWatch(s, h, watchId); var k := KeyOf(s.items[h]);
      && Ok(cfg, r) && r.index == s.index && h in r.items && r.items[h] == Watched(s.items[h], watchId)
      && Cached(r) == Cached(s)[k := Watched(s.items[h], watchId)]
  {
    var it := s.items[h];
    var w := Watched(it, watchId);
    var k := KeyOf(it);
    if watchId == 0 {
      assert w == it;
      assert Cached(s)[k] == it;
      assert Cached(s)[k := w] == Cached(s);
    } else {
      assert AddWatch(s, h, watchId) == Rewrite(s, h, w) && KeyOf(w) == k;
      RewriteOk(cfg, s, h, w);
    }
  }

  /** `add_watch` on a record outside the cache changes no served item. */
  lemma AddWatchLoose(cfg: Config, s: MemState, h: Handle, watchId: u32)
    requires Ok(cfg, s) && h in s.items && !IsLinked(s.items, s.index, h)
    ensures var r := AddWatch(s, h, watchId);
      && Ok(cfg, r) && r.index == s.index && r.items == s.items[h := Watched(s.items[h], watchId)]
      && !IsLinked(r.items, r.index, h) && Cached(r) == Cached(s)
  {
    var w := Watched(s.items[h], watchId);
    if watchId == 0 {
      assert s.items[h := w] == s.items;
    } else {
      assert AddWatch(s, h, watchId) == Rewrite(s, h, w) && KeyOf(w) == KeyOf(s.items[h]);
      RewriteOk(cfg, s, h, w);
    }
  }

  /** The branch of `add` and `set` (762-778, 821-837) for a key not in
      the cache: the request record `h` takes the watch and is linked; an
      unknown watch id leaves it unlinked and owned by the caller. */
  function Admit(cfg: Config, s: MemState, h: Handle, watchId: u32, live: set<u32>, newId: u64, now: u32): Done<Stored>
    requires Ok(cfg, s) && h in s.items && !IsLinked(s.items, s.index, h)
  {
    if watchId != 0 && watchId !in live then Done(s, Quiet, Stored(WatchNotFound, None))
    else
      Placed(cfg, s, h);
      Done(Link(AddWatch(s, h, watchId), h, newId, now), Quiet, Stored(Success, Some(newId)))
  }

  /** A linked request record serves its key under the new cache id. */
  lemma AdmitDone(cfg: Config, s: MemState, h: Handle, watchId: u32, live: set<u32>, newId: u64, now: u32)
    requires Ok(cfg, s) && h in s.items && !IsLinked(s.items, s.index, h)
    requires KeyOf(s.items[h]) !in s.index && (watchId == 0 || watchId in live)
    ensures var r := Admit(cfg, s, h, watchId, live, newId, now); var it := s.items[h];
      && Ok(cfg, r.s) && r.note == Quiet && r.out == Stored(Success, Some(newId))
      && KeyOf(it) in r.s.index && r.s.index[KeyOf(it)] == h
      && Cached(r.s) == Cached(s)[KeyOf(it) := Stamped(Watched(it, watchId), newId, now)]
  {
    var it := s.items[h];
    var w := Watched(it, watchId);
    Placed(cfg, s, h);
    var s1 := Rewrite(s, h, w);
    assert AddWatch(s, h, watchId) == s1 by {
      if watchId == 0 {
        assert s1.items == s.items;
      }
    }
    var r := Admit(cfg, s, h, watchId, live, newId, now);
    assert r.s == Link(s1, h, newId, now);
    assert KeyOf(w) == KeyOf(it) && s1.items[h] == w;
    RewriteOk(cfg, s, h, w);
    LinkOk(cfg, s1, h, newId, now);
    assert Cached(r.s) == Cached(s)[KeyOf(it) := Stamped(w, newId, now)];
  }

  /** The branch of `set` and `replace` for a key in the cache (796-819,
      849-873): an admitted request supersedes the stored record, whose
      watches are told DATA_UPDATED, and then takes the watch; an unknown
      watch id or a CAS token that does not match leaves the store alone.
      The `do_get` reference is given back in every case. */
  function Overwrite(cfg: Config, s: MemState, h: Handle, watchId: u32, live: set<u32>, newId: u64, now: u32): Done<Stored>
    requires Ok(cfg, s) && h in s.items && !IsLinked(s.items, s.index, h) && KeyOf(s.items[h]) in s.index
  {
    var it := s.items[h];
    var x := s.index[KeyOf(it)];
    var cur := s.items[x];
    Placed(cfg, s, x);
    Placed(cfg, s, h);
    var s1 := Ref(s, x);
    if !Admits(it.cacheId, cur) then Done(Release(cfg, s1, x), Quiet, Stored(Mismatch, None))
    else if watchId != 0 && watchId !in live then Done(Release(cfg, s1, x), Quiet, Stored(WatchNotFound, None))
    else
      SupersedeRef(cfg, s, x, h, newId, now);
      var s2 := Supersede(cfg, s1, x, h, newId, now);
      assert h in s2.items;
      Done(Release(cfg, AddWatch(s2, h, watchId), x), Announce(cur, DataUpdated), Stored(Success, Some(newId)))
  }

  /** A refused overwrite changes nothing. */
  lemma OverwriteRefused(cfg: Config, s: MemState, h: Handle, watchId: u32, live: set<u32>, newId: u64, now: u32)
    requires Ok(cfg, s) && h in s.items && !IsLinked(s.items, s.index, h) && KeyOf(s.items[h]) in s.index
    requires var cur := s.items[s.index[KeyOf(s.items[h])]];
      !Admits(s.items[h].cacheId, cur) || (watchId != 0 && watchId !in live)
    ensures Overwrite(cfg, s, h, watchId, live, newId, now)
         == Done(s, Quiet, Stored(if !Admits(s.items[h].cacheId, Cached(s)[KeyOf(s.items[h])]) then Mismatch else WatchNotFound, None))
  {
    var x := s.index[KeyOf(s.items[h])];
    Placed(cfg, s, x);
    RefRelease(cfg, s, x);
    assert Cached(s)[KeyOf(s.items[h])] == s.items[x];
  }

  /** An admitted overwrite is one `do_replace` and one `add_watch`. */
  lemma OverwriteShape(cfg: Config, s: MemState, h: Handle, watchId: u32, live: set<u32>, newId: u64, now: u32)
    requires Ok(cfg, s) && h in s.items && !IsLinked(s.items, s.index, h) && KeyOf(s.items[h]) in s.index
    requires Admits(s.items[h].cacheId, s.items[s.index[KeyOf(s.items[h])]]) && (watchId == 0 || watchId in live)
    ensures var x := s.index[KeyOf(s.items[h])];
      && x != h && Holds(cfg, s, x) && s.items[x].refCount >= 1 && s.items[x].expirationId < |s.lists|
      && s.items[h].expirationId < |s.lists|
      && Overwrite(cfg, s, h, watchId, live, newId, now)
         == Done(AddWatch(Supersede(cfg, s, x, h, newId, now), h, watchId),
                 Announce(s.items[x], DataUpdated), Stored(Success, Some(newId)))
  {
    var x := s.index[KeyOf(s.items[h])];
    Placed(cfg, s, x);
    Placed(cfg, s, h);
    SupersedeRef(cfg, s, x, h, newId, now);
    var a := Supersede(cfg, Ref(s, x), x, h, newId, now);
    var b := Supersede(cfg, s, x, h, newId, now);
    assert a.items[h] == Stamped(s.items[h], newId, now) == b.items[h];
    if watchId != 0 {
      ReleaseRewrite(cfg, a, x, h, Watched(a.items[h], watchId));
    }
  }

  /** An admitted overwrite: the key now maps to the request record,
      stamped, carrying the new watch; the stored record's watches are
      told DATA_UPDATED. */
  lemma OverwriteDone(cfg: Config, s: MemState, h: Handle, watchId: u32, live: set<u32>, newId: u64, now: u32)
    requires Ok(cfg, s) && h in s.items && !IsLinked(s.items, s.index, h) && KeyOf(s.items[h]) in s.index
    requires Admits(s.items[h].cacheId, s.items[s.index[KeyOf(s.items[h])]]) && (watchId == 0 || watchId in live)
    ensures var r := Overwrite(cfg, s, h, watchId, live, newId, now); var it := s.items[h]; var k := KeyOf(it);
      && Ok(cfg, r.s) && r.out == Stored(Success, Some(newId)) && r.note == Announce(Cached(s)[k], DataUpdated)
      && k in r.s.index && r.s.index[k] == h
      && Cached(r.s) == Cached(s)[k := Stamped(Watched(it, watchId), newId, now)]
  {
    var it := s.items[h];
    var k := KeyOf(it);
    var x := s.index[k];
    OverwriteShape(cfg, s, h, watchId, live, newId, now);
    assert Cached(s)[k] == s.items[x];
    var b := Supersede(cfg, s, x, h, newId, now);
    SupersedeOk(cfg, s, x, h, newId, now);
    var st := Stamped(it, newId, now);
    assert b.items[h] == st && KeyOf(st) == k;
    AddWatchOk(cfg, b, h, watchId);
    UpdateTwice(Cached(s), k, st, Watched(st, watchId));
    assert Watched(st, watchId) == Stamped(Watched(it, watchId), newId, now);
  }

  /** `add` (756-787): a request whose key is cached fails with EXISTS
      (the `do_get` reference is given back); otherwise it is admitted. */
  function Add(cfg: Config, s: MemState, h: Handle, watchId: u32, live: set<u32>, newId: u64, now: u32): Done<Stored>
    requires Ok(cfg, s) && h in s.items && !IsLinked(s.items, s.index, h)
  {
    var k := KeyOf(s.items[h]);
    if k in s.index then
      var x := s.index[k];
      Placed(cfg, s, x);
      Done(Release(cfg, Ref(s, x), x), Quiet, Stored(Exists, None))
    else Admit(cfg, s, h, watchId, live, newId, now)
  }

  /** What `add` does: it never touches a cached key, and a new key gets
      the request record. */
  lemma AddEffect(cfg: Config, s: MemState, h: Handle, watchId: u32, live: set<u32>, newId: u64, now: u32)
    requires Ok(cfg, s) && h in s.items && !IsLinked(s.items, s.index, h)
    ensures var r := Add(cfg, s, h, watchId, live, newId, now); var it := s.items[h]; var k := KeyOf(it);
      && Ok(cfg, r.s) && r.note == Quiet
      && (k in Cached(s) ==> r == Done(s, Quiet, Stored(Exists, None)))
      && (k !in Cached(s) && watchId != 0 && watchId !in live ==> r == Done(s, Quiet, Stored(WatchNotFound, None)))
      && (k !in Cached(s) && (watchId == 0 || watchId in live) ==>
           && r.out == Stored(Success, Some(newId)) && k in r.s.index && r.s.index[k] == h
           && Cached(r.s) == Cached(s)[k := Stamped(Watched(it, watchId), newId, now)])
  {
    var k := KeyOf(s.items[h]);
    if k in s.index {
      Placed(cfg, s, s.index[k]);
      RefRelease(cfg, s, s.index[k]);
    } else if watchId == 0 || watchId in live {
      AdmitDone(cfg, s, h, watchId, live, newId, now);
    }
  }

  /** `set` (789-840): a cached key is overwritten, a new one admitted. */
  function Set(cfg: Config, s: MemState, h: Handle, watchId: u32, live: set<u32>, newId: u64, now: u32): Done<Stored>
    requires Ok(cfg, s) && h in s.items && !IsLinked(s.items, s.index, h)
  {
    if KeyOf(s.items[h]) in s.index then Overwrite(cfg, s, h, watchId, live, newId, now)
    else Admit(cfg, s, h, watchId, live, newId, now)
  }

  /** What `set` does: on success the key maps to the request record,
      stamped with the new cache id and carrying the watch, whether or not
      the key was cached; a cached record is superseded only when the
      request's CAS token admits it. */
  lemma SetEffect(cfg: Config, s: MemState, h: Handle, watchId: u32, live: set<u32>, newId: u64, now: u32)
    requires Ok(cfg, s) && h in s.items && !IsLinked(s.items, s.index, h)
    ensures var r := Set(cfg, s, h, watchId, live, newId, now); var it := s.items[h]; var k := KeyOf(it);
      && Ok(cfg, r.s)
      && (k in Cached(s) && !Admits(it.cacheId, Cached(s)[k]) ==> r == Done(s, Quiet, Stored(Mismatch, None)))
      && ((k !in Cached(s) || Admits(it.cacheId, Cached(s)[k])) && watchId != 0 && watchId !in live ==>
           r == Done(s, Quiet, Stored(WatchNotFound, None)))
      && (k !in Cached(s) && (watchId == 0 || watchId in live) ==> r.note == Quiet)
      && (k in Cached(s) && Admits(it.cacheId, Cached(s)[k]) && (watchId == 0 || watchId in live) ==>
           r.note == Announce(Cached(s)[k], DataUpdated))
      && ((k !in Cached(s) || Admits(it.cacheId, Cached(s)[k])) && (watchId == 0 || watchId in live) ==>
           && r.out == Stored(Success, Some(newId)) && k in r.s.index && r.s.index[k] == h
           && Cached(r.s) == Cached(s)[k := Stamped(Watched(it, watchId), newId, now)])
  {
    var it := s.items[h];
    var k := KeyOf(it);
    if k in s.index {
      assert Set(cfg, s, h, watchId, live, newId, now) == Overwrite(cfg, s, h, watchId, live, newId, now);
      assert Cached(s)[k] == s.items[s.index[k]];
      if !Admits(it.cacheId, s.items[s.index[k]]) || (watchId != 0 && watchId !in live) {
        OverwriteRefused(cfg, s, h, watchId, live, newId, now);
      } else {
        OverwriteDone(cfg, s, h, watchId, live, newId, now);
      }
    } else if watchId == 0 || watchId in live {
      assert Set(cfg, s, h, watchId, live, newId, now) == Admit(cfg, s, h, watchId, live, newId, now);
      AdmitDone(cfg, s, h, watchId, live, newId, now);
    }
  }

  /** `replace` (842-879): like `set` on a cached key; a new key fails
      with NOT_FOUND. */
  function Replace(cfg: Config, s: MemState, h: Handle, watchId: u32, live: set<u32>, newId: u64, now: u32): Done<Stored>
    requires Ok(cfg, s) && h in s.items && !IsLinked(s.items, s.index, h)
  {
    if KeyOf(s.items[h]) in s.index then Overwrite(cfg, s, h, watchId, live, newId, now)
    else Done(s, Quiet, Stored(NotFound, None))
  }

  /** What `replace` does: it never adds a key. */
  lemma ReplaceEffect(cfg: Config, s: MemState, h: Handle, watchId: u32, live: set<u32>, newId: u64, now: u32)
    requires Ok(cfg, s) && h in s.items && !IsLinked(s.items, s.index, h)
    ensures var r := Replace(cfg, s, h, watchId, live, newId, now); var it := s.items[h]; var k := KeyOf(it);
      && Ok(cfg, r.s)
      && (k !in Cached(s) ==> r == Done(s, Quiet, Stored(NotFound, None)))
      && (k in Cached(s) && !Admits(it.cacheId, Cached(s)[k]) ==> r == Done(s, Quiet, Stored(Mismatch, None)))
      && (k in Cached(s) && Admits(it.cacheId, Cached(s)[k]) && watchId != 0 && watchId !in live ==>
           r == Done(s, Quiet, Stored(WatchNotFound, None)))
      && (k in Cached(s) && Admits(it.cacheId, Cached(s)[k]) && (watchId == 0 || watchId in live) ==>
           && r.out == Stored(Success, Some(newId)) && r.note == Announce(Cached(s)[k], DataUpdated)
           && k in r.s.index && r.s.index[k] == h
           && Cached(r.s) == Cached(s)[k := Stamped(Watched(it, watchId), newId, now)])
      && Cached(r.s).Keys == Cached(s).Keys
  {
    var it := s.items[h];
    var k := KeyOf(it);
    if k in s.index {
      ReplaceFound(cfg, s, h, watchId, live, newId, now);
    } else {
      assert k !in Cached(s);
      assert Replace(cfg, s, h, watchId, live, newId, now) == Done(s, Quiet, Stored(NotFound, None));
    }
  }

  /** `replace` of a cached key is the overwrite `set` performs. */
  lemma ReplaceFound(cfg: Config, s: MemState, h: Handle, watchId: u32, live: set<u32>, newId: u64, now: u32)
    requires Ok(cfg, s) && h in s.items && !IsLinked(s.items, s.index, h) && KeyOf(s.items[h]) in s.index
    ensures var r := Replace(cfg, s, h, watchId, live, newId, now); var it := s.items[h]; var k := KeyOf(it);
      && Ok(cfg, r.s) && k in Cached(s)
      && (!Admits(it.cacheId, Cached(s)[k]) ==> r == Done(s, Quiet, Stored(Mismatch, None)))
      && (Admits(it.cacheId, Cached(s)[k]) && watchId != 0 && watchId !in live ==>
           r == Done(s, Quiet, Stored(WatchNotFound, None)))
      && (Admits(it.cacheId, Cached(s)[k]) && (watchId == 0 || watchId in live) ==>
           && r.out == Stored(Success, Some(newId)) && r.note == Announce(Cached(s)[k], DataUpdated)
           && k in r.s.index && r.s.index[k] == h
           && Cached(r.s) == Cached(s)[k := Stamped(Watched(it, watchId), newId, now)])
      && Cached(r.s).Keys == Cached(s).Keys
  {
    var it := s.items[h];
    var k := KeyOf(it);
    assert Replace(cfg, s, h, watchId, live, newId, now) == Overwrite(cfg, s, h, watchId, live, newId, now);
    assert k in Cached(s) && Cached(s)[k] == s.items[s.index[k]];
    if !Admits(it.cacheId, s.items[s.index[k]]) || (watchId != 0 && watchId !in live) {
      OverwriteRefused(cfg, s, h, watchId, live, newId, now);
    } else {
      OverwriteDone(cfg, s, h, watchId, live, newId, now);
      UpdateKeys(Cached(s), k, Stamped(Watched(it, watchId), newId, now));
    }
  }

  /** Updating a key a map holds keeps its key set. */
  lemma UpdateKeys<K, V>(m: map<K, V>, k: K, v: V)
    requires k in m
    ensures m[k := v].Keys == m.Keys
  {
  }

  // ---------------- extending a cached record ----------------

  /** The record `append` (`front` false) or `prepend` (`front` true)
      allocates for request `it` over the cached record `cur`: the joined
      bytes, and the flags, deadline and ext of `cur`. */
  function Joined(cfg: Config, it: Item, cur: Item, front: bool, now: u32): Item
    requires TableOk(cfg.maxSize, cfg.classIdMax)
  {
    NewRecord(cfg, it.groupId, it.key, cur.flags, cur.expireTime,
              if front then it.data + cur.data else cur.data + it.data, cur.ext, Bucket(now, cur.expireTime))
  }

  /** `append` (881-930) and `prepend` (932-981), told apart by `front`.
      A missing key fails with NOT_FOUND; a CAS token that does not match
      fails with MISMATCH and keeps the `do_get` reference; when no buffer
      is found the result is OUT_OF_MEMORY; an unknown watch id frees the
      new record and fails with WATCH_NOT_FOUND. Otherwise the new record
      supersedes the cached one, whose watches are told DATA_UPDATED, and
      `add_watch` goes to the request record `h`: before `do_replace` for
      `prepend`, after it for `append`. Both references taken are then
      given back. */
  function Extend(cfg: Config, s: MemState, h: Handle, front: bool, watchId: u32, live: set<u32>,
                  mallocOk: bool, newId: u64, now: u32): Done<Stored>
    requires Ok(cfg, s) && TableOk(cfg.maxSize, cfg.classIdMax) && h in s.items && !IsLinked(s.items, s.index, h)
  {
    var it := s.items[h];
    var k := KeyOf(it);
    if k !in s.index then Done(s, Quiet, Stored(NotFound, None))
    else
      var x := s.index[k];
      var cur := s.items[x];
      Placed(cfg, s, x);
      var s1 := Ref(s, x);
      if !Admits(it.cacheId, cur) then Done(s1, Quiet, Stored(Mismatch, None))
      else
        var rec := Joined(cfg, it, cur, front, now);
        NewRecordOk(cfg, it.groupId, it.key, cur.flags, cur.expireTime,
                    if front then it.data + cur.data else cur.data + it.data, cur.ext, Bucket(now, cur.expireTime), s.next);
        MemSpare(cfg, s, rec.classId);
        if !Fits(cfg, s1, rec.classId, mallocOk) then Done(Release(cfg, s1, x), Quiet, Stored(OutOfMemory, None))
        else if watchId != 0 && watchId !in live then
          Done(Discard(cfg, s1, x, rec, mallocOk), Quiet, Stored(WatchNotFound, None))
        else
          Done(Graft(cfg, s1, x, h, rec, front, watchId, mallocOk, newId, now), Announce(cur, DataUpdated), Stored(Success, Some(newId)))
  }

  /** The WATCH_NOT_FOUND path of `append` and `prepend`: the new record
      is allocated and freed again, and the `do_get` reference given back. */
  function Discard(cfg: Config, s: MemState, x: Handle, rec: Item, mallocOk: bool): MemState
    requires Beside(cfg, s, x, rec, mallocOk)
  {
    InsertHeld(cfg, s, x, rec, mallocOk);
    var s2 := Insert(cfg, s, rec, mallocOk).value;
    Release(cfg, Release(cfg, s2, s.next), x)
  }

  /** The heart of the success path of `append` and `prepend`: the
      `do_replace` of the record at `x` by the new record at `n`, and
      `add_watch` on the request record `h`, before the replacement for
      `prepend` (`front`) and after it for `append`. */
  function Joint(cfg: Config, s: MemState, x: Handle, n: Handle, h: Handle, front: bool, watchId: u32,
                 newId: u64, now: u32): MemState
    requires Holds(cfg, s, x) && s.items[x].refCount >= 1 && s.items[x].expirationId < |s.lists|
    requires n in s.items && n != x && s.items[n].expirationId < |s.lists| && h in s.items && h != x && h != n
  {
    SupersedeHeld(cfg, s, x, n, h, newId, now);
    if front then Supersede(cfg, AddWatch(s, h, watchId), x, n, newId, now)
    else AddWatch(Supersede(cfg, s, x, n, newId, now), h, watchId)
  }

  /** The success path of `append` and `prepend`: the new record is
      allocated, joined in, and the references to it and to the cached
      record are given back. */
  function Graft(cfg: Config, s: MemState, x: Handle, h: Handle, rec: Item, front: bool, watchId: u32,
                 mallocOk: bool, newId: u64, now: u32): MemState
    requires Beside(cfg, s, x, rec, mallocOk) && s.items[x].refCount >= 2 && h in s.items && h != x
  {
    InsertHeld(cfg, s, x, rec, mallocOk);
    var s2 := Insert(cfg, s, rec, mallocOk).value;
    var n := s.next;
    JointHeld(cfg, s2, x, n, h, front, watchId, newId, now);
    var j := Joint(cfg, s2, x, n, h, front, watchId, newId, now);
    Release(cfg, Release(cfg, j, n), x)
  }

  /** After `Joint` the new record is stamped and, when the cached record
      kept a reference, nothing was freed. */
  lemma JointHeld(cfg: Config, s: MemState, x: Handle, n: Handle, h: Handle, front: bool, watchId: u32,
                  newId: u64, now: u32)
    requires Holds(cfg, s, x) && s.items[x].refCount >= 1 && s.items[x].expirationId < |s.lists|
    requires n in s.items && n != x && s.items[n].expirationId < |s.lists| && h in s.items && h != x && h != n
    ensures var j := Joint(cfg, s, x, n, h, front, watchId, newId, now);
      && j.next == s.next && n in j.items && j.items[n] == Stamped(s.items[n], newId, now)
      && (s.items[x].refCount >= 2 ==>
           && j.freeCount == s.freeCount && j.memUsed == s.memUsed
           && x in j.items && j.items[x].refCount == s.items[x].refCount - 1 && j.items[x].classId == s.items[x].classId)
  {
    SupersedeHeld(cfg, s, x, n, h, newId, now);
    SupersedeHeld(cfg, AddWatch(s, h, watchId), x, n, h, newId, now);
  }

  /** The record that `Joint` applied to a store whose record at `x`
      carries an extra reference leaves that reference to give back. */
  lemma JointRef(cfg: Config, s: MemState, x: Handle, n: Handle, h: Handle, front: bool, watchId: u32,
                 newId: u64, now: u32)
    requires Holds(cfg, s, x) && s.items[x].refCount >= 1 && s.items[x].expirationId < |s.lists|
    requires n in s.items && n != x && s.items[n].expirationId < |s.lists| && h in s.items && h != x && h != n
    ensures var j := Joint(cfg, Ref(s, x), x, n, h, front, watchId, newId, now);
      && Holds(cfg, j, x) && j.items[x].refCount >= 1
      && Release(cfg, j, x) == Joint(cfg, s, x, n, h, front, watchId, newId, now)
  {
    var rx := Ref(s, x);
    JointHeld(cfg, rx, x, n, h, front, watchId, newId, now);
    if front {
      var tw := AddWatch(s, h, watchId);
      assert AddWatch(rx, h, watchId) == Ref(tw, x) by {
        if watchId != 0 {
          RewriteSwap(s, x, h, s.items[x].(refCount := s.items[x].refCount + 1), Watched(s.items[h], watchId));
        }
      }
      SupersedeRef(cfg, tw, x, n, newId, now);
    } else {
      SupersedeRef(cfg, s, x, n, newId, now);
      var a := Supersede(cfg, rx, x, n, newId, now);
      SupersedeHeld(cfg, rx, x, n, h, newId, now);
      if watchId != 0 {
        ReleaseRewrite(cfg, a, x, h, Watched(a.items[h], watchId));
      }
    }
  }

  /** The record `append` and `prepend` leave in the cache: the joined
      record, stamped, holding only the linkage's reference. */
  function Spliced(rec: Item, newId: u64, now: u32): Item {
    rec.(cacheId := newId, lastUpdateTime := now)
  }

  /** Unfolding the success path with the `do_get` reference taken
      inside it: allocating commutes with taking the reference, and the
      allocation's reference is given back by a rewrite. */
  lemma GraftUnfold(cfg: Config, s: MemState, x: Handle, h: Handle, rec: Item, front: bool, watchId: u32,
                    mallocOk: bool, newId: u64, now: u32)
    requires Beside(cfg, s, x, rec, mallocOk) && h in s.items && h != x
    ensures x in Ref(s, x).items && Beside(cfg, Ref(s, x), x, rec, mallocOk) && Ref(s, x).items[x].refCount >= 2
    ensures var t := Insert(cfg, s, rec, mallocOk);
      && t.Some? && h in t.value.items && h != s.next && x != s.next && t.value.items[s.next] == rec
      && Holds(cfg, t.value, x) && t.value.items[x].refCount >= 1 && t.value.items[x].expirationId < |t.value.lists|
      && var j := Joint(cfg, Ref(t.value, x), x, s.next, h, front, watchId, newId, now);
      && Holds(cfg, j, x) && j.items[x].refCount >= 1
      && Graft(cfg, Ref(s, x), x, h, rec, front, watchId, mallocOk, newId, now)
         == Release(cfg, Rewrite(j, s.next, Spliced(rec, newId, now)), x)
  {
    var n := s.next;
    InsertHeld(cfg, s, x, rec, mallocOk);
    InsertRef(cfg, s, x, rec, mallocOk);
    var t := Insert(cfg, s, rec, mallocOk).value;
    JointHeld(cfg, Ref(t, x), x, n, h, front, watchId, newId, now);
  }

  /** The success path with the `do_get` reference taken inside it is
      `Joint` on the store with the new record allocated, and the
      allocation's reference given back. */
  lemma GraftShape(cfg: Config, s: MemState, x: Handle, h: Handle, rec: Item, front: bool, watchId: u32,
                   mallocOk: bool, newId: u64, now: u32)
    requires Beside(cfg, s, x, rec, mallocOk) && h in s.items && h != x
    ensures x in Ref(s, x).items && Beside(cfg, Ref(s, x), x, rec, mallocOk) && Ref(s, x).items[x].refCount >= 2
    ensures var t := Insert(cfg, s, rec, mallocOk);
      && t.Some? && h in t.value.items && h != s.next && x != s.next && t.value.items[s.next] == rec
      && Holds(cfg, t.value, x) && t.value.items[x].refCount >= 1 && t.value.items[x].expirationId < |t.value.lists|
      && Graft(cfg, Ref(s, x), x, h, rec, front, watchId, mallocOk, newId, now)
         == Rewrite(Joint(cfg, t.value, x, s.next, h, front, watchId, newId, now), s.next, Spliced(rec, newId, now))
  {
    GraftUnfold(cfg, s, x, h, rec, front, watchId, mallocOk, newId, now);
    var t := Insert(cfg, s, rec, mallocOk).value;
    JointRelease(cfg, t, x, s.next, h, front, watchId, newId, now, Spliced(rec, newId, now));
  }

  /** Giving back the `do_get` reference after `Joint` and the splice is
      `Joint` without that reference. */
  lemma JointRelease(cfg: Config, t: MemState, x: Handle, n: Handle, h: Handle, front: bool, watchId: u32,
                     newId: u64, now: u32, spliced: Item)
    requires Holds(cfg, t, x) && t.items[x].refCount >= 1 && t.items[x].expirationId < |t.lists|
    requires n in t.items && n != x && t.items[n].expirationId < |t.lists| && h in t.items && h != x && h != n
    ensures var j := Joint(cfg, Ref(t, x), x, n, h, front, watchId, newId, now);
      && Holds(cfg, j, x) && j.items[x].refCount >= 1
      && Release(cfg, Rewrite(j, n, spliced), x) == Rewrite(Joint(cfg, t, x, n, h, front, watchId, newId, now), n, spliced)
  {
    JointRef(cfg, t, x, n, h, front, watchId, newId, now);
    var j := Joint(cfg, Ref(t, x), x, n, h, front, watchId, newId, now);
    ReleaseRewrite(cfg, j, x, n, spliced);
  }

  /** On a sound store, the `do_replace` and `add_watch` of `prepend`
      serve the key from the new record and leave the watch on the
      request record. */
  lemma JointFrontOk(cfg: Config, t: MemState, x: Handle, n: Handle, h: Handle, watchId: u32, newId: u64, now: u32)
    requires Ok(cfg, t) && IsLinked(t.items, t.index, x)
    requires n in t.items && !IsLinked(t.items, t.index, n) && t.items[n].refCount == 1
    requires h in t.items && !IsLinked(t.items, t.index, h) && h != n
    requires KeyOf(t.items[n]) == KeyOf(t.items[x]) && KeyOf(t.items[h]) == KeyOf(t.items[x])
    ensures x != n && x != h && Holds(cfg, t, x) && t.items[x].refCount >= 1
    ensures t.items[x].expirationId < |t.lists| && t.items[n].expirationId < |t.lists|
    ensures var k := KeyOf(t.items[x]); var j := Joint(cfg, t, x, n, h, true, watchId, newId, now);
      && Ok(cfg, j) && IsLinked(j.items, j.index, n) && j.items[n] == Stamped(t.items[n], newId, now)
      && h in j.items && j.items[h] == Watched(t.items[h], watchId)
      && Cached(j) == Cached(t)[k := j.items[n]]
  {
    Placed(cfg, t, x);
    Placed(cfg, t, n);
    AddWatchLoose(cfg, t, h, watchId);
    var tw := AddWatch(t, h, watchId);
    assert tw.items[x] == t.items[x] && tw.items[n] == t.items[n];
    assert Joint(cfg, t, x, n, h, true, watchId, newId, now) == Supersede(cfg, tw, x, n, newId, now);
    SupersedeOk(cfg, tw, x, n, newId, now);
  }

  /** The same for `append`. */
  lemma JointBackOk(cfg: Config, t: MemState, x: Handle, n: Handle, h: Handle, watchId: u32, newId: u64, now: u32)
    requires Ok(cfg, t) && IsLinked(t.items, t.index, x)
    requires n in t.items && !IsLinked(t.items, t.index, n) && t.items[n].refCount == 1
    requires h in t.items && !IsLinked(t.items, t.index, h) && h != n
    requires KeyOf(t.items[n]) == KeyOf(t.items[x]) && KeyOf(t.items[h]) == KeyOf(t.items[x])
    ensures x != n && x != h && Holds(cfg, t, x) && t.items[x].refCount >= 1
    ensures t.items[x].expirationId < |t.lists| && t.items[n].expirationId < |t.lists|
    ensures var k := KeyOf(t.items[x]); var j := Joint(cfg, t, x, n, h, false, watchId, newId, now);
      && Ok(cfg, j) && IsLinked(j.items, j.index, n) && j.items[n] == Stamped(t.items[n], newId, now)
      && h in j.items && j.items[h] == Watched(t.items[h], watchId)
      && Cached(j) == Cached(t)[k := j.items[n]]
  {
    var k := KeyOf(t.items[x]);
    Placed(cfg, t, x);
    Placed(cfg, t, n);
    SupersedeOk(cfg, t, x, n, newId, now);
    var S := Supersede(cfg, t, x, n, newId, now);
    assert S.items[h] == t.items[h] && S.index[k] == n;
    assert Joint(cfg, t, x, n, h, false, watchId, newId, now) == AddWatch(S, h, watchId);
    AddWatchLoose(cfg, S, h, watchId);
  }

  /** On a sound store, the success path of `append` and `prepend` serves
      the key from the new record, carrying only the linkage's reference
      and no watch, and leaves the watch on the request record. */
  lemma GraftOk(cfg: Config, t: MemState, x: Handle, n: Handle, h: Handle, front: bool, watchId: u32, newId: u64, now: u32)
    requires Ok(cfg, t) && IsLinked(t.items, t.index, x)
    requires n in t.items && !IsLinked(t.items, t.index, n) && t.items[n].refCount == 1
    requires h in t.items && !IsLinked(t.items, t.index, h) && h != n
    requires KeyOf(t.items[n]) == KeyOf(t.items[x]) && KeyOf(t.items[h]) == KeyOf(t.items[x])
    ensures x != n && x != h && Holds(cfg, t, x) && t.items[x].refCount >= 1
    ensures t.items[x].expirationId < |t.lists| && t.items[n].expirationId < |t.lists|
    ensures var k := KeyOf(t.items[x]); var one := Spliced(t.items[n], newId, now);
      var r := Rewrite(Joint(cfg, t, x, n, h, front, watchId, newId, now), n, one);
      && Ok(cfg, r) && k in r.index && r.index[k] == n && h in r.items && r.items[h] == Watched(t.items[h], watchId)
      && Cached(r) == Cached(t)[k := one]
  {
    var k := KeyOf(t.items[x]);
    var st := Stamped(t.items[n], newId, now);
    var one := Spliced(t.items[n], newId, now);
    if front {
      JointFrontOk(cfg, t, x, n, h, watchId, newId, now);
    } else {
      JointBackOk(cfg, t, x, n, h, watchId, newId, now);
    }
    var j := Joint(cfg, t, x, n, h, front, watchId, newId, now);
    assert KeyOf(one) == k && j.items[n] == st;
    RewriteOk(cfg, j, n, one);
    UpdateTwice(Cached(t), k, st, one);
  }

  /** The WATCH_NOT_FOUND path with the `do_get` reference taken inside
      it is an allocation freed again. */
  lemma DiscardShape(cfg: Config, s: MemState, x: Handle, rec: Item, mallocOk: bool)
    requires Beside(cfg, s, x, rec, mallocOk)
    ensures x in Ref(s, x).items && Beside(cfg, Ref(s, x), x, rec, mallocOk)
    ensures var t := Insert(cfg, s, rec, mallocOk);
      && t.Some? && Holds(cfg, t.value, s.next) && t.value.items[s.next].refCount >= 1
      && Discard(cfg, Ref(s, x), x, rec, mallocOk) == Release(cfg, t.value, s.next)
  {
    var n := s.next;
    InsertHeld(cfg, s, x, rec, mallocOk);
    InsertRef(cfg, s, x, rec, mallocOk);
    var t := Insert(cfg, s, rec, mallocOk).value;
    var ix := t.items[x].(refCount := t.items[x].refCount + 1);
    ReleaseRewrite(cfg, t, n, x, ix);
    var u := Release(cfg, t, n);
    assert u.items[x] == t.items[x];
    assert Release(cfg, Ref(t, x), n) == Ref(u, x);
    RefRelease(cfg, u, x);
  }

  /** A request `append` or `prepend` accepts: the record it builds. */
  lemma ExtendRecord(cfg: Config, s: MemState, h: Handle, front: bool, mallocOk: bool, now: u32)
    requires Ok(cfg, s) && TableOk(cfg.maxSize, cfg.classIdMax) && h in s.items && KeyOf(s.items[h]) in s.index
    requires var x := s.index[KeyOf(s.items[h])];
      Fits(cfg, s, Joined(cfg, s.items[h], s.items[x], front, now).classId, mallocOk)
    ensures var x := s.index[KeyOf(s.items[h])]; var rec := Joined(cfg, s.items[h], s.items[x], front, now);
      && x in s.items && Cached(s)[KeyOf(s.items[h])] == s.items[x] && Beside(cfg, s, x, rec, mallocOk)
      && ItemOk(cfg.header, cfg.maxSize, cfg.classIdMax, rec, s.next, s.next + 1)
      && KeyOf(rec) == KeyOf(s.items[x])
  {
    var it := s.items[h];
    var x := s.index[KeyOf(it)];
    var cur := s.items[x];
    Placed(cfg, s, x);
    NewRecordOk(cfg, it.groupId, it.key, cur.flags, cur.expireTime,
                if front then it.data + cur.data else cur.data + it.data, cur.ext, Bucket(now, cur.expireTime), s.next);
    MemSpare(cfg, s, Joined(cfg, it, cur, front, now).classId);
  }

  /** An accepted `append` or `prepend`: the key is served by the joined
      record under the new cache id, with no watch; the cached record's
      watches are told DATA_UPDATED; the watch lands on the request record. */
  lemma ExtendDone(cfg: Config, s: MemState, h: Handle, front: bool, watchId: u32, live: set<u32>,
                   mallocOk: bool, newId: u64, now: u32)
    requires Ok(cfg, s) && TableOk(cfg.maxSize, cfg.classIdMax) && h in s.items && !IsLinked(s.items, s.index, h)
    requires KeyOf(s.items[h]) in s.index
    requires var cur := s.items[s.index[KeyOf(s.items[h])]];
      && Admits(s.items[h].cacheId, cur) && Fits(cfg, s, Joined(cfg, s.items[h], cur, front, now).classId, mallocOk)
    requires watchId == 0 || watchId in live
    ensures var r := Extend(cfg, s, h, front, watchId, live, mallocOk, newId, now);
      var it := s.items[h]; var k := KeyOf(it);
      && Ok(cfg, r.s) && r.out == Stored(Success, Some(newId)) && r.note == Announce(Cached(s)[k], DataUpdated)
      && k in r.s.index && r.s.index[k] == s.next && h in r.s.items && r.s.items[h] == Watched(it, watchId)
      && Cached(r.s) == Cached(s)[k := Spliced(Joined(cfg, it, Cached(s)[k], front, now), newId, now)]
  {
    var it := s.items[h];
    var k := KeyOf(it);
    var x := s.index[k];
    var rec := Joined(cfg, it, s.items[x], front, now);
    ExtendRecord(cfg, s, h, front, mallocOk, now);
    ExtendAccepted(cfg, s, h, front, watchId, live, mallocOk, newId, now);
    GraftDone(cfg, s, x, h, rec, front, watchId, mallocOk, newId, now);
  }

  /** The success path on a sound store: the key of the cached record at
      `x` is served by the new record, spliced in, and the watch lands on
      the request record `h`. */
  lemma GraftDone(cfg: Config, s: MemState, x: Handle, h: Handle, rec: Item, front: bool, watchId: u32,
                  mallocOk: bool, newId: u64, now: u32)
    requires Ok(cfg, s) && IsLinked(s.items, s.index, x) && h in s.items && !IsLinked(s.items, s.index, h)
    requires Beside(cfg, s, x, rec, mallocOk) && ItemOk(cfg.header, cfg.maxSize, cfg.classIdMax, rec, s.next, s.next + 1)
    requires KeyOf(rec) == KeyOf(s.items[x]) && KeyOf(s.items[h]) == KeyOf(s.items[x])
    ensures x != h && Beside(cfg, Ref(s, x), x, rec, mallocOk) && Ref(s, x).items[x].refCount >= 2 && h in Ref(s, x).items
    ensures var r := Graft(cfg, Ref(s, x), x, h, rec, front, watchId, mallocOk, newId, now); var k := KeyOf(rec);
      && Ok(cfg, r) && k in r.index && r.index[k] == s.next && h in r.items && r.items[h] == Watched(s.items[h], watchId)
      && Cached(r) == Cached(s)[k := Spliced(rec, newId, now)]
  {
    GraftShape(cfg, s, x, h, rec, front, watchId, mallocOk, newId, now);
    InsertOk(cfg, s, rec, mallocOk);
    var t := Insert(cfg, s, rec, mallocOk).value;
    assert t.index == s.index && t.items[x] == s.items[x] && t.items[h] == s.items[h] && t.items[s.next] == rec;
    GraftOk(cfg, t, x, s.next, h, front, watchId, newId, now);
  }

  /** An accepted `append` or `prepend` takes the success path. */
  lemma ExtendAccepted(cfg: Config, s: MemState, h: Handle, front: bool, watchId: u32, live: set<u32>,
                       mallocOk: bool, newId: u64, now: u32)
    requires Ok(cfg, s) && TableOk(cfg.maxSize, cfg.classIdMax) && h in s.items && !IsLinked(s.items, s.index, h)
    requires KeyOf(s.items[h]) in s.index
    requires var cur := s.items[s.index[KeyOf(s.items[h])]];
      && Admits(s.items[h].cacheId, cur) && Fits(cfg, s, Joined(cfg, s.items[h], cur, front, now).classId, mallocOk)
    requires watchId == 0 || watchId in live
    ensures var x := s.index[KeyOf(s.items[h])]; var rec := Joined(cfg, s.items[h], s.items[x], front, now);
      && x in s.items && x != h && Beside(cfg, s, x, rec, mallocOk)
      && Beside(cfg, Ref(s, x), x, rec, mallocOk) && Ref(s, x).items[x].refCount >= 2 && h in Ref(s, x).items
      && Extend(cfg, s, h, front, watchId, live, mallocOk, newId, now)
         == Done(Graft(cfg, Ref(s, x), x, h, rec, front, watchId, mallocOk, newId, now),
                 Announce(s.items[x], DataUpdated), Stored(Success, Some(newId)))
  {
    var x := s.index[KeyOf(s.items[h])];
    var rec := Joined(cfg, s.items[h], s.items[x], front, now);
    ExtendRecord(cfg, s, h, front, mallocOk, now);
    Placed(cfg, s, x);
    GraftShape(cfg, s, x, h, rec, front, watchId, mallocOk, newId, now);
  }

  /** A refused `append` or `prepend` after the lookup: an unknown watch
      id leaves the items, the index and the buckets as they were. */
  lemma ExtendUnwatched(cfg: Config, s: MemState, h: Handle, front: bool, watchId: u32, live: set<u32>,
                        mallocOk: bool, newId: u64, now: u32)
    requires Ok(cfg, s) && TableOk(cfg.maxSize, cfg.classIdMax) && h in s.items && !IsLinked(s.items, s.index, h)
    requires KeyOf(s.items[h]) in s.index
    requires var cur := s.items[s.index[KeyOf(s.items[h])]];
      && Admits(s.items[h].cacheId, cur) && Fits(cfg, s, Joined(cfg, s.items[h], cur, front, now).classId, mallocOk)
    requires watchId != 0 && watchId !in live
    ensures var r := Extend(cfg, s, h, front, watchId, live, mallocOk, newId, now);
      && Ok(cfg, r.s) && r.out == Stored(WatchNotFound, None) && r.note == Quiet
      && r.s.items == s.items && r.s.index == s.index && r.s.lists == s.lists && Cached(r.s) == Cached(s)
  {
    var it := s.items[h];
    var k := KeyOf(it);
    var x := s.index[k];
    var rec := Joined(cfg, it, s.items[x], front, now);
    ExtendRecord(cfg, s, h, front, mallocOk, now);
    var r := Extend(cfg, s, h, front, watchId, live, mallocOk, newId, now);
    assert r == Done(Discard(cfg, Ref(s, x), x, rec, mallocOk), Quiet, Stored(WatchNotFound, None));
    DiscardShape(cfg, s, x, rec, mallocOk);
    AllocFree(cfg, s, rec, mallocOk);
  }

  /** A mismatching CAS token keeps the `do_get` reference: the store is
      the one `do_get` left, with the cached record's count raised. */
  lemma ExtendLeak(cfg: Config, s: MemState, h: Handle, front: bool, watchId: u32, live: set<u32>,
                   mallocOk: bool, newId: u64, now: u32)
    requires Ok(cfg, s) && TableOk(cfg.maxSize, cfg.classIdMax) && h in s.items && !IsLinked(s.items, s.index, h)
    requires KeyOf(s.items[h]) in s.index && !Admits(s.items[h].cacheId, s.items[s.index[KeyOf(s.items[h])]])
    ensures s.index[KeyOf(s.items[h])] in s.items
    ensures Extend(cfg, s, h, front, watchId, live, mallocOk, newId, now)
         == Done(Ref(s, s.index[KeyOf(s.items[h])]), Quiet, Stored(Mismatch, None))
  {
    Placed(cfg, s, s.index[KeyOf(s.items[h])]);
  }

  /** What `append` and `prepend` do. */
  lemma ExtendEffect(cfg: Config, s: MemState, h: Handle, front: bool, watchId: u32, live: set<u32>,
                     mallocOk: bool, newId: u64, now: u32)
    requires Ok(cfg, s) && TableOk(cfg.maxSize, cfg.classIdMax) && h in s.items && !IsLinked(s.items, s.index, h)
    ensures var r := Extend(cfg, s, h, front, watchId, live, mallocOk, newId, now);
      var it := s.items[h]; var k := KeyOf(it);
      && Ok(cfg, r.s)
      && (k !in Cached(s) ==> r == Done(s, Quiet, Stored(NotFound, None)))
      && (k in Cached(s) && !Admits(it.cacheId, Cached(s)[k]) ==>
           && r.out == Stored(Mismatch, None) && r.note == Quiet
           && Cached(r.s) == Cached(s)[k := Referenced(Cached(s)[k])])
      && (k in Cached(s) && Admits(it.cacheId, Cached(s)[k]) ==>
           var rec := Joined(cfg, it, Cached(s)[k], front, now);
           && (!Fits(cfg, s, rec.classId, mallocOk) ==> r == Done(s, Quiet, Stored(OutOfMemory, None)))
           && (Fits(cfg, s, rec.classId, mallocOk) && watchId != 0 && watchId !in live ==>
                && r.out == Stored(WatchNotFound, None) && r.note == Quiet
                && r.s.items == s.items && r.s.index == s.index && r.s.lists == s.lists)
           && (Fits(cfg, s, rec.classId, mallocOk) && (watchId == 0 || watchId in live) ==>
                && r.out == Stored(Success, Some(newId)) && r.note == Announce(Cached(s)[k], DataUpdated)
                && k in r.s.index && r.s.index[k] == s.next && h in r.s.items && r.s.items[h] == Watched(it, watchId)
                && Cached(r.s) == Cached(s)[k := Spliced(rec, newId, now)]))
  {
    var it := s.items[h];
    var k := KeyOf(it);
    if k in s.index {
      var x := s.index[k];
      assert Cached(s)[k] == s.items[x];
      var rec := Joined(cfg, it, s.items[x], front, now);
      if !Admits(it.cacheId, s.items[x]) {
        ExtendLeak(cfg, s, h, front, watchId, live, mallocOk, newId, now);
        RefCached(cfg, s, k);
      } else if !Fits(cfg, s, rec.classId, mallocOk) {
        Placed(cfg, s, x);
        RefRelease(cfg, s, x);
      } else if watchId != 0 && watchId !in live {
        ExtendUnwatched(cfg, s, h, front, watchId, live, mallocOk, newId, now);
      } else {
        ExtendDone(cfg, s, h, front, watchId, live, mallocOk, newId, now);
      }
    } else {
      assert k !in Cached(s);
    }
  }

  // ---------------- counters ----------------

  /** The results of `delta`: the reason, the cache id written back
      through the in-and-out parameter, and the value. */
  datatype Counted = Counted(reason: Reason, cacheId: u64, value: int)

  /** The value `delta` computes from the stored bytes `data`: the
      stored counter (0 when the bytes are not a 64-bit decimal) plus or
      minus `d`, wrapped to 64 bits. */
  function Counter(data: seq<byte>, incr: bool, d: int): int {
    Wrap64(if incr then ParseInt(data) + d else ParseInt(data) - d)
  }

  /** The record `delta` allocates when the new text is of another
      length: the key, flags, deadline and ext of `cur` with the text. */
  function Recounted(cfg: Config, cur: Item, text: seq<byte>, now: u32): Item
    requires TableOk(cfg.maxSize, cfg.classIdMax)
  {
    NewRecord(cfg, cur.groupId, cur.key, cur.flags, cur.expireTime, text, cur.ext, Bucket(now, cur.expireTime))
  }

  /** `delta` (1010-1082). A missing key fails with NOT_FOUND and a CAS
      token that does not match fails with MISMATCH, both writing back
      cache id 0 and value 0. Otherwise the counter is computed and
      formatted; text of a new length goes into a new record, which
      supersedes the cached one and whose allocation failing yields
      OUT_OF_MEMORY with the cache id left as passed in; text of the same
      length overwrites the record in place, with a new cache id and
      update time and no notification. The `do_get` reference is given
      back on every path past the lookup. */
  function Delta(cfg: Config, s: MemState, k: Key, incr: bool, d: int, cas: u64,
                 mallocOk: bool, newId: u64, now: u32): Done<Counted>
    requires Ok(cfg, s) && TableOk(cfg.maxSize, cfg.classIdMax)
  {
    if k !in s.index then Done(s, Quiet, Counted(NotFound, 0, 0))
    else
      var x := s.index[k];
      var cur := s.items[x];
      Placed(cfg, s, x);
      var s1 := Ref(s, x);
      if !Admits(cas, cur) then Done(Release(cfg, s1, x), Quiet, Counted(Mismatch, 0, 0))
      else
        var v := Counter(cur.data, incr, d);
        var text := FormatInt(v);
        if |text| != |cur.data| then
          var rec := Recounted(cfg, cur, text, now);
          NewRecordOk(cfg, cur.groupId, cur.key, cur.flags, cur.expireTime, text, cur.ext, Bucket(now, cur.expireTime), s.next);
          MemSpare(cfg, s, rec.classId);
          if !Fits(cfg, s1, rec.classId, mallocOk) then Done(Release(cfg, s1, x), Quiet, Counted(OutOfMemory, cas, v))
          else Done(Renew(cfg, s1, x, rec, mallocOk, newId, now), Announce(cur, DataUpdated), Counted(Success, newId, v))
        else
          Done(Retexted(cfg, s1, x, text, newId, now), Quiet, Counted(Success, newId, v))
  }

  /** The in-place path of `delta`: the record at `x` takes the text, the
      new cache id and the update time, and the reference is given back. */
  function Retexted(cfg: Config, s: MemState, x: Handle, text: seq<byte>, newId: u64, now: u32): MemState
    requires Holds(cfg, s, x) && s.items[x].refCount >= 2
  {
    Release(cfg, Rewrite(s, x, s.items[x].(data := text, cacheId := newId, lastUpdateTime := now)), x)
  }

  /** With the `do_get` reference taken inside it, the in-place path is a
      single rewrite. */
  lemma RetextedShape(cfg: Config, s: MemState, x: Handle, text: seq<byte>, newId: u64, now: u32)
    requires Holds(cfg, s, x) && s.items[x].refCount >= 1
    ensures Holds(cfg, Ref(s, x), x) && Ref(s, x).items[x].refCount >= 2
    ensures Retexted(cfg, Ref(s, x), x, text, newId, now)
         == Rewrite(s, x, s.items[x].(data := text, cacheId := newId, lastUpdateTime := now))
  {
    var it := s.items[x];
    var up := it.(data := text, cacheId := newId, lastUpdateTime := now, refCount := it.refCount + 1);
    RewriteTwice(s, x, it.(refCount := it.refCount + 1), up);
    RewriteRelease(cfg, s, x, up);
  }

  /** The reallocating path of `delta`: the new record is allocated and
      supersedes the one at `x`; both references are then given back. */
  function Renew(cfg: Config, s: MemState, x: Handle, rec: Item, mallocOk: bool, newId: u64, now: u32): MemState
    requires Beside(cfg, s, x, rec, mallocOk) && s.items[x].refCount >= 2
  {
    InsertHeld(cfg, s, x, rec, mallocOk);
    var s2 := Insert(cfg, s, rec, mallocOk).value;
    var n := s.next;
    SupersedeHeld(cfg, s2, x, n, n, newId, now);
    var j := Supersede(cfg, s2, x, n, newId, now);
    Release(cfg, Release(cfg, j, n), x)
  }

  /** Unfolding the reallocating path with the `do_get` reference taken
      inside it: allocating commutes with taking the reference, and the
      allocation's reference is given back by a rewrite. */
  lemma RenewUnfold(cfg: Config, s: MemState, x: Handle, rec: Item, mallocOk: bool, newId: u64, now: u32)
    requires Beside(cfg, s, x, rec, mallocOk)
    ensures x in Ref(s, x).items && Beside(cfg, Ref(s, x), x, rec, mallocOk) && Ref(s, x).items[x].refCount >= 2
    ensures var t := Insert(cfg, s, rec, mallocOk);
      && t.Some? && x != s.next && s.next in t.value.items && t.value.items[s.next] == rec
      && Holds(cfg, t.value, x) && t.value.items[x].refCount >= 1 && t.value.items[x].expirationId < |t.value.lists|
      && var a := Supersede(cfg, Ref(t.value, x), x, s.next, newId, now);
      && Holds(cfg, a, x) && a.items[x].refCount >= 1
      && Renew(cfg, Ref(s, x), x, rec, mallocOk, newId, now) == Release(cfg, Rewrite(a, s.next, Spliced(rec, newId, now)), x)
  {
    var n := s.next;
    InsertHeld(cfg, s, x, rec, mallocOk);
    InsertRef(cfg, s, x, rec, mallocOk);
    var t := Insert(cfg, s, rec, mallocOk).value;
    SupersedeHeld(cfg, Ref(t, x), x, n, n, newId, now);
  }

  /** The reallocating path with the `do_get` reference taken inside it
      is the `do_replace` on the store with the new record allocated, and
      the allocation's reference given back. */
  lemma RenewShape(cfg: Config, s: MemState, x: Handle, rec: Item, mallocOk: bool, newId: u64, now: u32)
    requires Beside(cfg, s, x, rec, mallocOk)
    ensures x in Ref(s, x).items && Beside(cfg, Ref(s, x), x, rec, mallocOk) && Ref(s, x).items[x].refCount >= 2
    ensures var t := Insert(cfg, s, rec, mallocOk);
      && t.Some? && x != s.next && s.next in t.value.items && t.value.items[s.next] == rec
      && Holds(cfg, t.value, x) && t.value.items[x].refCount >= 1 && t.value.items[x].expirationId < |t.value.lists|
      && Renew(cfg, Ref(s, x), x, rec, mallocOk, newId, now)
         == Rewrite(Supersede(cfg, t.value, x, s.next, newId, now), s.next, Spliced(rec, newId, now))
  {
    RenewUnfold(cfg, s, x, rec, mallocOk, newId, now);
    var t := Insert(cfg, s, rec, mallocOk).value;
    SupersedeRef(cfg, t, x, s.next, newId, now);
    var a := Supersede(cfg, Ref(t, x), x, s.next, newId, now);
    ReleaseRewrite(cfg, a, x, s.next, Spliced(rec, newId, now));
  }

  /** On a sound store, the reallocating path of `delta` serves the key
      from the new record, stamped and holding only the linkage's
      reference. */
  lemma RenewOk(cfg: Config, t: MemState, x: Handle, n: Handle, newId: u64, now: u32)
    requires Ok(cfg, t) && IsLinked(t.items, t.index, x)
    requires n in t.items && !IsLinked(t.items, t.index, n) && t.items[n].refCount == 1
    requires KeyOf(t.items[n]) == KeyOf(t.items[x])
    ensures x != n && Holds(cfg, t, x) && t.items[x].refCount >= 1
    ensures t.items[x].expirationId < |t.lists| && t.items[n].expirationId < |t.lists|
    ensures var k := KeyOf(t.items[x]); var one := Spliced(t.items[n], newId, now);
      var r := Rewrite(Supersede(cfg, t, x, n, newId, now), n, one);
      && Ok(cfg, r) && k in r.index && r.index[k] == n && Cached(r) == Cached(t)[k := one]
  {
    var k := KeyOf(t.items[x]);
    var st := Stamped(t.items[n], newId, now);
    var one := Spliced(t.items[n], newId, now);
    Placed(cfg, t, x);
    Placed(cfg, t, n);
    SupersedeOk(cfg, t, x, n, newId, now);
    var j := Supersede(cfg, t, x, n, newId, now);
    assert KeyOf(one) == k && j.items[n] == st;
    RewriteOk(cfg, j, n, one);
    UpdateTwice(Cached(t), k, st, one);
  }

  /** An admitted `delta` whose text changes length: the record it builds. */
  lemma DeltaRecord(cfg: Config, s: MemState, k: Key, text: seq<byte>, mallocOk: bool, now: u32)
    requires Ok(cfg, s) && TableOk(cfg.maxSize, cfg.classIdMax) && k in s.index
    requires Fits(cfg, s, Recounted(cfg, s.items[s.index[k]], text, now).classId, mallocOk)
    ensures var x := s.index[k]; var rec := Recounted(cfg, s.items[x], text, now);
      && x in s.items && Cached(s)[k] == s.items[x] && Beside(cfg, s, x, rec, mallocOk)
      && ItemOk(cfg.header, cfg.maxSize, cfg.classIdMax, rec, s.next, s.next + 1)
      && KeyOf(rec) == KeyOf(s.items[x])
  {
    var x := s.index[k];
    var cur := s.items[x];
    Placed(cfg, s, x);
    NewRecordOk(cfg, cur.groupId, cur.key, cur.flags, cur.expireTime, text, cur.ext, Bucket(now, cur.expireTime), s.next);
    MemSpare(cfg, s, Recounted(cfg, cur, text, now).classId);
  }

  /** An admitted `delta` whose text changes length and finds a buffer:
      the key is served by a new record holding the text under the new
      cache id, and the old record's watches are told DATA_UPDATED. */
  lemma DeltaRenewed(cfg: Config, s: MemState, k: Key, incr: bool, d: int, cas: u64,
                     mallocOk: bool, newId: u64, now: u32)
    requires Ok(cfg, s) && TableOk(cfg.maxSize, cfg.classIdMax) && k in s.index
    requires var cur := s.items[s.index[k]]; var text := FormatInt(Counter(cur.data, incr, d));
      && Admits(cas, cur) && |text| != |cur.data| && Fits(cfg, s, Recounted(cfg, cur, text, now).classId, mallocOk)
    ensures var r := Delta(cfg, s, k, incr, d, cas, mallocOk, newId, now);
      var cur := Cached(s)[k]; var v := Counter(cur.data, incr, d);
      && Ok(cfg, r.s) && r.out == Counted(Success, newId, v) && r.note == Announce(cur, DataUpdated)
      && k in r.s.index && r.s.index[k] == s.next
      && Cached(r.s) == Cached(s)[k := Spliced(Recounted(cfg, cur, FormatInt(v), now), newId, now)]
  {
    var x := s.index[k];
    var cur := s.items[x];
    var text := FormatInt(Counter(cur.data, incr, d));
    var rec := Recounted(cfg, cur, text, now);
    DeltaRecord(cfg, s, k, text, mallocOk, now);
    DeltaAccepted(cfg, s, k, incr, d, cas, mallocOk, newId, now);
    RenewDone(cfg, s, x, rec, mallocOk, newId, now);
  }

  /** An admitted `delta` whose text changes length and finds a buffer
      takes the reallocating path. */
  lemma DeltaAccepted(cfg: Config, s: MemState, k: Key, incr: bool, d: int, cas: u64,
                      mallocOk: bool, newId: u64, now: u32)
    requires Ok(cfg, s) && TableOk(cfg.maxSize, cfg.classIdMax) && k in s.index
    requires var cur := s.items[s.index[k]]; var text := FormatInt(Counter(cur.data, incr, d));
      && Admits(cas, cur) && |text| != |cur.data| && Fits(cfg, s, Recounted(cfg, cur, text, now).classId, mallocOk)
    ensures var x := s.index[k]; var cur := s.items[x]; var v := Counter(cur.data, incr, d);
      var rec := Recounted(cfg, cur, FormatInt(v), now);
      && x in s.items && Beside(cfg, s, x, rec, mallocOk)
      && Beside(cfg, Ref(s, x), x, rec, mallocOk) && Ref(s, x).items[x].refCount >= 2
      && Delta(cfg, s, k, incr, d, cas, mallocOk, newId, now)
         == Done(Renew(cfg, Ref(s, x), x, rec, mallocOk, newId, now), Announce(cur, DataUpdated), Counted(Success, newId, v))
  {
    var x := s.index[k];
    var cur := s.items[x];
    var text := FormatInt(Counter(cur.data, incr, d));
    DeltaRecord(cfg, s, k, text, mallocOk, now);
    RenewShape(cfg, s, x, Recounted(cfg, cur, text, now), mallocOk, newId, now);
  }

  /** The reallocating path on a sound store: the key of the cached
      record at `x` is served by the new record, spliced in. */
  lemma RenewDone(cfg: Config, s: MemState, x: Handle, rec: Item, mallocOk: bool, newId: u64, now: u32)
    requires Ok(cfg, s) && IsLinked(s.items, s.index, x)
    requires Beside(cfg, s, x, rec, mallocOk) && ItemOk(cfg.header, cfg.maxSize, cfg.classIdMax, rec, s.next, s.next + 1)
    requires KeyOf(rec) == KeyOf(s.items[x])
    ensures Beside(cfg, Ref(s, x), x, rec, mallocOk) && Ref(s, x).items[x].refCount >= 2
    ensures var r := Renew(cfg, Ref(s, x), x, rec, mallocOk, newId, now); var k := KeyOf(rec);
      && Ok(cfg, r) && k in r.index && r.index[k] == s.next && Cached(r) == Cached(s)[k := Spliced(rec, newId, now)]
  {
    RenewShape(cfg, s, x, rec, mallocOk, newId, now);
    InsertOk(cfg, s, rec, mallocOk);
    var t := Insert(cfg, s, rec, mallocOk).value;
    assert t.index == s.index && t.items[x] == s.items[x] && t.items[s.next] == rec;
    RenewOk(cfg, t, x, s.next, newId, now);
  }

  /** An admitted `delta` whose text keeps its length overwrites the
      cached record in place. */
  lemma DeltaInPlace(cfg: Config, s: MemState, k: Key, incr: bool, d: int, cas: u64,
                     mallocOk: bool, newId: u64, now: u32)
    requires Ok(cfg, s) && TableOk(cfg.maxSize, cfg.classIdMax) && k in s.index
    requires var cur := s.items[s.index[k]];
      Admits(cas, cur) && |FormatInt(Counter(cur.data, incr, d))| == |cur.data|
    ensures var r := Delta(cfg, s, k, incr, d, cas, mallocOk, newId, now);
      var cur := Cached(s)[k]; var v := Counter(cur.data, incr, d);
      && Ok(cfg, r.s) && r.out == Counted(Success, newId, v) && r.note == Quiet
      && Cached(r.s) == Cached(s)[k := cur.(data := FormatInt(v), cacheId := newId, lastUpdateTime := now)]
  {
    var x := s.index[k];
    var it := s.items[x];
    var v := Counter(it.data, incr, d);
    var it' := it.(data := FormatInt(v), cacheId := newId, lastUpdateTime := now);
    Placed(cfg, s, x);
    RetextedShape(cfg, s, x, FormatInt(v), newId, now);
    var r := Delta(cfg, s, k, incr, d, cas, mallocOk, newId, now);
    assert r.s == Retexted(cfg, Ref(s, x), x, FormatInt(v), newId, now);
    assert r.s == Rewrite(s, x, it');
    assert TotalSize(cfg.header, it') == TotalSize(cfg.header, it);
    assert KeyOf(it') == k && IsLinked(s.items, s.index, x) && Cached(s)[k] == it;
    RewriteOk(cfg, s, x, it');
  }

  /** What `delta` does. */
  lemma DeltaEffect(cfg: Config, s: MemState, k: Key, incr: bool, d: int, cas: u64,
                    mallocOk: bool, newId: u64, now: u32)
    requires Ok(cfg, s) && TableOk(cfg.maxSize, cfg.classIdMax)
    ensures var r := Delta(cfg, s, k, incr, d, cas, mallocOk, newId, now);
      && Ok(cfg, r.s)
      && (k !in Cached(s) ==> r == Done(s, Quiet, Counted(NotFound, 0, 0)))
      && (k in Cached(s) && !Admits(cas, Cached(s)[k]) ==> r == Done(s, Quiet, Counted(Mismatch, 0, 0)))
      && (k in Cached(s) && Admits(cas, Cached(s)[k]) ==>
           var cur := Cached(s)[k]; var v := Counter(cur.data, incr, d); var text := FormatInt(v);
           var rec := Recounted(cfg, cur, text, now);
           && (|text| == |cur.data| ==>
                && r.out == Counted(Success, newId, v) && r.note == Quiet
                && Cached(r.s) == Cached(s)[k := cur.(data := text, cacheId := newId, lastUpdateTime := now)])
           && (|text| != |cur.data| && !Fits(cfg, s, rec.classId, mallocOk) ==>
                r == Done(s, Quiet, Counted(OutOfMemory, cas, v)))
           && (|text| != |cur.data| && Fits(cfg, s, rec.classId, mallocOk) ==>
                && r.out == Counted(Success, newId, v) && r.note == Announce(cur, DataUpdated)
                && k in r.s.index && r.s.index[k] == s.next
                && Cached(r.s) == Cached(s)[k := Spliced(rec, newId, now)]))
  {
    if k in s.index {
      var x := s.index[k];
      var cur := s.items[x];
      assert Cached(s)[k] == cur;
      var text := FormatInt(Counter(cur.data, incr, d));
      if !Admits(cas, cur) {
        Placed(cfg, s, x);
        RefRelease(cfg, s, x);
      } else if |text| == |cur.data| {
        DeltaInPlace(cfg, s, k, incr, d, cas, mallocOk, newId, now);
      } else if !Fits(cfg, s, Recounted(cfg, cur, text, now).classId, mallocOk) {
        Placed(cfg, s, x);
        RefRelease(cfg, s, x);
      } else {
        DeltaRenewed(cfg, s, k, incr, d, cas, mallocOk, newId, now);
      }
    } else {
      assert k !in Cached(s);
    }
  }

  /** The text `delta` stores reads back as the value it reports. */
  lemma DeltaReadsBack(cur: Item, incr: bool, d: int)
    ensures ParseInt(FormatInt(Counter(cur.data, incr, d))) == Counter(cur.data, incr, d)
  {
    FormatParse(Counter(cur.data, incr, d));
  }

  /** An increment followed by a decrement by the same amount gives back
      the counter, wrap-around included. */
  lemma IncrDecr(data: seq<byte>, d: int)
    ensures Counter(FormatInt(Counter(data, true, d)), false, d) == ParseInt(data)
  {
    var v := Counter(data, true, d);
    FormatParse(v);
    WrapAdd(ParseInt(data) + d, -d);
  }

  // ---------------- removal and base-info updates ----------------

  /** `remove` (983-1007): an admitted record is unlinked with DELETED; the
      `do_get` reference is given back in every case. */
  function Remove(cfg: Config, s: MemState, k: Key, cas: u64): Done<Reason>
    requires Ok(cfg, s)
  {
    if k !in s.index then Done(s, Quiet, NotFound)
    else
      var x := s.index[k];
      var it := s.items[x];
      Placed(cfg, s, x);
      var s1 := Ref(s, x);
      if Admits(cas, it) then
        UnlinkRef(cfg, s, x);
        Done(Release(cfg, Unlink(cfg, s1, x), x), Announce(it, Deleted), Success)
      else
        Done(Release(cfg, s1, x), Quiet, Mismatch)
  }

  /** An admitted `remove` is one `do_unlink`. */
  lemma RemoveDone(cfg: Config, s: MemState, k: Key, cas: u64)
    requires Ok(cfg, s) && k in s.index && Admits(cas, s.items[s.index[k]])
    ensures Ok(cfg, Remove(cfg, s, k, cas).s)
    ensures Remove(cfg, s, k, cas).out == Success
    ensures Remove(cfg, s, k, cas).note == Announce(Cached(s)[k], Deleted)
    ensures Cached(Remove(cfg, s, k, cas).s) == Cached(s) - {k}
  {
    var x := s.index[k];
    Placed(cfg, s, x);
    UnlinkRef(cfg, s, x);
    var r := Remove(cfg, s, k, cas);
    assert r.s == Unlink(cfg, s, x);
    assert Cached(s)[k] == s.items[x];
    UnlinkOk(cfg, s, x);
  }

  /** A refused `remove` changes nothing. */
  lemma RemoveRefused(cfg: Config, s: MemState, k: Key, cas: u64)
    requires Ok(cfg, s) && k in s.index && !Admits(cas, s.items[s.index[k]])
    ensures Remove(cfg, s, k, cas) == Done(s, Quiet, Mismatch)
  {
    var x := s.index[k];
    Placed(cfg, s, x);
    RefRelease(cfg, s, x);
  }

  /** What `remove` does: it reports a missing key, refuses a CAS token
      that does not match, and otherwise drops the key and tells its
      watches. */
  lemma RemoveEffect(cfg: Config, s: MemState, k: Key, cas: u64)
    requires Ok(cfg, s)
    ensures var r := Remove(cfg, s, k, cas);
      && Ok(cfg, r.s)
      && (k !in Cached(s) ==> r == Done(s, Quiet, NotFound))
      && (k in Cached(s) && !Admits(cas, Cached(s)[k]) ==> r == Done(s, Quiet, Mismatch))
      && (k in Cached(s) && Admits(cas, Cached(s)[k]) ==>
           && r.out == Success && r.note == Announce(Cached(s)[k], Deleted)
           && Cached(r.s) == Cached(s) - {k})
  {
    if k in s.index {
      assert Cached(s)[k] == s.items[s.index[k]];
      if Admits(cas, s.items[s.index[k]]) {
        RemoveDone(cfg, s, k, cas);
      } else {
        RemoveRefused(cfg, s, k, cas);
      }
    }
  }

  /** The results of `update_flags` and `update_expiration`. */
  datatype Updated = Updated(ok: bool, cacheId: u64)

  /** `update_flags` (605-635): an admitted record takes the new flags,
      tells its watches BASE_INFO_UPDATED under its old cache id (keeping
      only the ids of watches that still exist), and gets the new cache id
      and update time. A mismatch reports the stored cache id and keeps the
      `do_get` reference, which is never given back. */
  function UpdateFlags(cfg: Config, s: MemState, k: Key, cas: u64, flags: u32, live: set<u32>,
                       newId: u64, now: u32): Done<Updated>
    requires Ok(cfg, s)
  {
    if k !in s.index then Done(s, Quiet, Updated(false, 0))
    else
      var x := s.index[k];
      var it := s.items[x];
      Placed(cfg, s, x);
      var s1 := Ref(s, x);
      if Admits(cas, it) then
        Done(Release(cfg, Reflag(s, x, flags, live, newId, now), x), Announce(it, BaseInfoUpdated), Updated(true, newId))
      else
        Done(s1, Quiet, Updated(false, it.cacheId))
  }

  /** The record as an admitted `update_flags` leaves it. */
  function Reflagged(it: Item, flags: u32, live: set<u32>, newId: u64, now: u32): Item {
    it.(flags := flags, watchers := it.watchers * live, cacheId := newId, lastUpdateTime := now)
  }

  /** The admitted rewrite of `update_flags` on the record at `x`, with
      the `do_get` reference taken. */
  function Reflag(s: MemState, x: Handle, flags: u32, live: set<u32>, newId: u64, now: u32): MemState
    requires x in s.items
  {
    var s1 := Ref(s, x);
    Rewrite(s1, x, Reflagged(s1.items[x], flags, live, newId, now))
  }

  /** An admitted `update_flags` rewrites the record in place. */
  lemma UpdateFlagsDone(cfg: Config, s: MemState, k: Key, cas: u64, flags: u32, live: set<u32>, newId: u64, now: u32)
    requires Ok(cfg, s) && k in s.index && Admits(cas, s.items[s.index[k]])
    ensures Ok(cfg, UpdateFlags(cfg, s, k, cas, flags, live, newId, now).s)
    ensures UpdateFlags(cfg, s, k, cas, flags, live, newId, now).out == Updated(true, newId)
    ensures UpdateFlags(cfg, s, k, cas, flags, live, newId, now).note == Announce(Cached(s)[k], BaseInfoUpdated)
    ensures Cached(UpdateFlags(cfg, s, k, cas, flags, live, newId, now).s)
         == Cached(s)[k := Reflagged(Cached(s)[k], flags, live, newId, now)]
  {
    var x := s.index[k];
    var it := s.items[x];
    var it' := Reflagged(it, flags, live, newId, now);
    var up := it'.(refCount := it.refCount + 1);
    Placed(cfg, s, x);
    RewriteTwice(s, x, it.(refCount := it.refCount + 1), up);
    RewriteRelease(cfg, s, x, up);
    var r := UpdateFlags(cfg, s, k, cas, flags, live, newId, now);
    assert Reflag(s, x, flags, live, newId, now) == Rewrite(s, x, up) by {
      assert Reflagged(Ref(s, x).items[x], flags, live, newId, now) == up;
    }
    assert up.(refCount := up.refCount - 1) == it';
    assert r.s == Rewrite(s, x, it');
    assert KeyOf(it') == k && IsLinked(s.items, s.index, x) && Cached(s)[k] == it;
    assert Rewritable(cfg, s, x, it');
    RewriteOk(cfg, s, x, it');
    assert Cached(r.s) == Cached(s)[k := it'];
    assert it' == Reflagged(Cached(s)[k], flags, live, newId, now);
  }

  /** A refused `update_flags` keeps the `do_get` reference. */
  lemma UpdateFlagsLeak(cfg: Config, s: MemState, k: Key, cas: u64, flags: u32, live: set<u32>, newId: u64, now: u32)
    requires Ok(cfg, s) && k in s.index && !Admits(cas, s.items[s.index[k]])
    ensures Ok(cfg, UpdateFlags(cfg, s, k, cas, flags, live, newId, now).s)
    ensures UpdateFlags(cfg, s, k, cas, flags, live, newId, now).out == Updated(false, Cached(s)[k].cacheId)
    ensures UpdateFlags(cfg, s, k, cas, flags, live, newId, now).note == Quiet
    ensures Cached(UpdateFlags(cfg, s, k, cas, flags, live, newId, now).s)
         == Cached(s)[k := Referenced(Cached(s)[k])]
  {
    Placed(cfg, s, s.index[k]);
    assert UpdateFlags(cfg, s, k, cas, flags, live, newId, now).s == Ref(s, s.index[k]);
    RefCached(cfg, s, k);
  }

  /** What `update_flags` does. */
  lemma UpdateFlagsEffect(cfg: Config, s: MemState, k: Key, cas: u64, flags: u32, live: set<u32>, newId: u64, now: u32)
    requires Ok(cfg, s)
    ensures var r := UpdateFlags(cfg, s, k, cas, flags, live, newId, now);
      && Ok(cfg, r.s)
      && (k !in Cached(s) ==> r == Done(s, Quiet, Updated(false, 0)))
      && (k in Cached(s) && !Admits(cas, Cached(s)[k]) ==>
           var it := Cached(s)[k];
           && r.out == Updated(false, it.cacheId) && r.note == Quiet
           && Cached(r.s) == Cached(s)[k := Referenced(it)])
      && (k in Cached(s) && Admits(cas, Cached(s)[k]) ==>
           && r.out == Updated(true, newId) && r.note == Announce(Cached(s)[k], BaseInfoUpdated)
           && Cached(r.s) == Cached(s)[k := Reflagged(Cached(s)[k], flags, live, newId, now)])
  {
    if k in s.index {
      assert Cached(s)[k] == s.items[s.index[k]];
      if Admits(cas, s.items[s.index[k]]) {
        UpdateFlagsDone(cfg, s, k, cas, flags, live, newId, now);
      } else {
        UpdateFlagsLeak(cfg, s, k, cas, flags, live, newId, now);
      }
    }
  }

  /** `update_expiration` (637-669): an admitted record takes the new
      absolute deadline and moves to the front of the bucket it now
      belongs to when that differs; its cache id stays and no watch is
      told. A mismatch reports cache id -1 and keeps the `do_get`
      reference, which is never given back. */
  function UpdateExpiration(cfg: Config, s: MemState, k: Key, cas: u64, expireTime: u32, now: u32): Done<Updated>
    requires Ok(cfg, s)
  {
    if k !in s.index then Done(s, Quiet, Updated(false, 0))
    else
      var x := s.index[k];
      var it := s.items[x];
      Placed(cfg, s, x);
      var s1 := Ref(s, x);
      if Admits(cas, it) then
        Done(Redated(cfg, s, x, Bucket(now, expireTime), expireTime), Quiet, Updated(true, it.cacheId))
      else
        Done(s1, Quiet, Updated(false, U64 - 1))
  }

  /** The store with the record at `x` in bucket `e`: moved to its front
      unless it is there already. */
  function Filed(s: MemState, x: Handle, e: nat): MemState
    requires x in s.items && s.items[x].expirationId < |s.lists| && e < |s.lists|
  {
    if e != s.items[x].expirationId then MoveToBucket(s, x, e) else s
  }

  lemma FiledOk(cfg: Config, s: MemState, x: Handle, e: nat)
    requires Ok(cfg, s) && IsLinked(s.items, s.index, x) && e < BUCKETS
    ensures s.items[x].expirationId < |s.lists| && e < |s.lists|
    ensures var m := Filed(s, x, e);
      && Ok(cfg, m) && IsLinked(m.items, m.index, x) && m.items[x] == s.items[x].(expirationId := e)
      && Cached(m) == Cached(s)[KeyOf(s.items[x]) := m.items[x]]
  {
    var it := s.items[x];
    Placed(cfg, s, x);
    if e != it.expirationId {
      assert Filed(s, x, e) == MoveToBucket(s, x, e);
      MoveOk(cfg, s, x, e);
    } else {
      assert it.(expirationId := e) == it;
      assert Cached(s)[KeyOf(it)] == it;
      assert Cached(s)[KeyOf(it) := it] == Cached(s);
    }
  }

  /** The admitted path of `update_expiration` on the record at `x`, with
      the `do_get` reference taken and given back around it. */
  function Redated(cfg: Config, s: MemState, x: Handle, e: nat, expireTime: u32): MemState
    requires Holds(cfg, s, x) && s.items[x].refCount >= 1
    requires s.items[x].expirationId < |s.lists| && e < |s.lists|
  {
    var s2 := Filed(Ref(s, x), x, e);
    Release(cfg, Rewrite(s2, x, s2.items[x].(expireTime := expireTime)), x)
  }

  /** That path is one move and one rewrite. */
  lemma RedatedShape(cfg: Config, s: MemState, x: Handle, e: nat, expireTime: u32)
    requires Holds(cfg, s, x) && s.items[x].refCount >= 1
    requires s.items[x].expirationId < |s.lists| && e < |s.lists|
    ensures Redated(cfg, s, x, e, expireTime)
         == Rewrite(Filed(s, x, e), x, s.items[x].(expirationId := e, expireTime := expireTime))
  {
    var it := s.items[x];
    var m := Filed(s, x, e);
    assert Filed(Ref(s, x), x, e) == Ref(m, x) by {
      if e != it.expirationId {
        MoveRef(s, x, e);
      }
    }
    var mi := it.(expirationId := e);
    assert m.items[x] == mi;
    var up := mi.(refCount := mi.refCount + 1, expireTime := expireTime);
    RewriteTwice(m, x, mi.(refCount := mi.refCount + 1), up);
    RewriteRelease(cfg, m, x, up);
  }

  /** An admitted `update_expiration` is one move and one rewrite. */
  lemma UpdateExpirationShape(cfg: Config, s: MemState, k: Key, cas: u64, expireTime: u32, now: u32)
    requires Ok(cfg, s) && k in s.index && Admits(cas, s.items[s.index[k]])
    ensures s.items[s.index[k]].expirationId < |s.lists| && Bucket(now, expireTime) < |s.lists|
    ensures var x := s.index[k];
      UpdateExpiration(cfg, s, k, cas, expireTime, now).s
      == Rewrite(Filed(s, x, Bucket(now, expireTime)), x,
                 s.items[x].(expirationId := Bucket(now, expireTime), expireTime := expireTime))
  {
    var x := s.index[k];
    Placed(cfg, s, x);
    RedatedShape(cfg, s, x, Bucket(now, expireTime), expireTime);
  }

  /** An admitted `update_expiration` files the record under the bucket of
      its new deadline. */
  lemma UpdateExpirationDone(cfg: Config, s: MemState, k: Key, cas: u64, expireTime: u32, now: u32)
    requires Ok(cfg, s) && k in s.index && Admits(cas, s.items[s.index[k]])
    ensures Ok(cfg, UpdateExpiration(cfg, s, k, cas, expireTime, now).s)
    ensures UpdateExpiration(cfg, s, k, cas, expireTime, now).out == Updated(true, Cached(s)[k].cacheId)
    ensures UpdateExpiration(cfg, s, k, cas, expireTime, now).note == Quiet
    ensures Cached(UpdateExpiration(cfg, s, k, cas, expireTime, now).s)
         == Cached(s)[k := Cached(s)[k].(expireTime := expireTime, expirationId := Bucket(now, expireTime))]
  {
    var x := s.index[k];
    var it := s.items[x];
    var e := Bucket(now, expireTime);
    UpdateExpirationShape(cfg, s, k, cas, expireTime, now);
    var m := Filed(s, x, e);
    var mi := it.(expirationId := e);
    var it' := mi.(expireTime := expireTime);
    var r := UpdateExpiration(cfg, s, k, cas, expireTime, now);
    assert r.s == Rewrite(m, x, it');
    FiledOk(cfg, s, x, e);
    assert KeyOf(it') == k && Cached(s)[k] == it;
    RewriteOk(cfg, m, x, it');
    UpdateTwice(Cached(s), k, mi, it');
    assert Cached(r.s) == Cached(s)[k := it'];
    assert it' == Cached(s)[k].(expireTime := expireTime, expirationId := Bucket(now, expireTime));
  }

  /** A refused `update_expiration` keeps the `do_get` reference. */
  lemma UpdateExpirationLeak(cfg: Config, s: MemState, k: Key, cas: u64, expireTime: u32, now: u32)
    requires Ok(cfg, s) && k in s.index && !Admits(cas, s.items[s.index[k]])
    ensures Ok(cfg, UpdateExpiration(cfg, s, k, cas, expireTime, now).s)
    ensures UpdateExpiration(cfg, s, k, cas, expireTime, now).out == Updated(false, U64 - 1)
    ensures UpdateExpiration(cfg, s, k, cas, expireTime, now).note == Quiet
    ensures Cached(UpdateExpiration(cfg, s, k, cas, expireTime, now).s)
         == Cached(s)[k := Referenced(Cached(s)[k])]
  {
    Placed(cfg, s, s.index[k]);
    assert UpdateExpiration(cfg, s, k, cas, expireTime, now).s == Ref(s, s.index[k]);
    RefCached(cfg, s, k);
  }

  /** What `update_expiration` does: no watch is told in any case, and an
      admitted record ends up in the bucket its new deadline calls for. */
  lemma UpdateExpirationEffect(cfg: Config, s: MemState, k: Key, cas: u64, expireTime: u32, now: u32)
    requires Ok(cfg, s)
    ensures var r := UpdateExpiration(cfg, s, k, cas, expireTime, now);
      && Ok(cfg, r.s) && r.note == Quiet
      && (k !in Cached(s) ==> r == Done(s, Quiet, Updated(false, 0)))
      && (k in Cached(s) && !Admits(cas, Cached(s)[k]) ==>
           var it := Cached(s)[k];
           && r.out == Updated(false, U64 - 1)
           && Cached(r.s) == Cached(s)[k := Referenced(it)])
      && (k in Cached(s) && Admits(cas, Cached(s)[k]) ==>
           var it := Cached(s)[k];
           && r.out == Updated(true, it.cacheId)
           && Cached(r.s) == Cached(s)[k := it.(expireTime := expireTime, expirationId := Bucket(now, expireTime))]
           && InBucket(Cached(r.s)[k].expirationId, now, expireTime))
  {
    if k in s.index {
      assert Cached(s)[k] == s.items[s.index[k]];
      if Admits(cas, s.items[s.index[k]]) {
        UpdateExpirationDone(cfg, s, k, cas, expireTime, now);
      } else {
        UpdateExpirationLeak(cfg, s, k, cas, expireTime, now);
      }
    }
  }
}
