/** A watch (`Cache_Watch`): a client's subscription to change
    notifications of the items registered under its id.

    A watch holds a pending list (`updated_list_`, ids notified since the
    last delivery), a committed list (`wait_updated_list_`, the batch handed
    to the client and not yet acknowledged), the sequence number of that
    batch and at most one armed sink (the client connection waiting for
    news). `fired` logs every call of the sink's `on_cache_watch_notify`. */
module Watch {
  import opened CacheTypes

  /** The whole observable state of one watch. */
  datatype WatchState = WatchState(
    expireTime: u32,
    sequence: u32,
    updated: seq<u64>,
    updatedTypes: seq<NotifyType>,
    waiting: seq<u64>,
    waitingTypes: seq<NotifyType>,
    sink: Option<SinkId>,
    fired: seq<SinkId>)

  /** A batch handed to the client: its sequence number and the notified
      cache ids with their notification types. */
  datatype Batch = Batch(sequence: u32, ids: seq<u64>, types: seq<NotifyType>)

  /** The outcome of a callback call: the new watch state, and the batch
      written to the caller's out-parameters (None: they are left as they
      were). */
  datatype Step = Step(next: WatchState, out: Option<Batch>)

  /** Each id list runs parallel to its list of notification types. */
  predicate Parallel(s: WatchState) {
    |s.updated| == |s.updatedTypes| && |s.waiting| == |s.waitingTypes|
  }

  /** `next_sequence`: the 32-bit sequence counter, which skips 0 (0 means
      "nothing was delivered"). */
  function NextSequence(q: u32): (r: u32)
    ensures r != 0
    ensures q + 1 < U32 ==> r == q + 1
  {
    if q + 1 == U32 then 1 else q + 1
  }

  /** The fresh watch built by `create_watch`. */
  function NewWatch(expireTime: u32): (s: WatchState)
    ensures Parallel(s) && s.updated == [] && s.waiting == [] && s.sink == None
  {
    WatchState(expireTime, 0, [], [], [], [], None, [])
  }

  /** The `on_cache_watch_notify` call an armed sink receives when it is
      woken: one entry for an armed sink, none otherwise. */
  function Woken(sink: Option<SinkId>): (r: seq<SinkId>)
    ensures |r| <= 1 && (r != [] <==> sink.Some?)
    ensures sink.Some? ==> r[0] == sink.value
  {
    if sink.Some? then [sink.value] else []
  }

  /** The ids not yet acknowledged by the client: the committed batch,
      then the pending ones. */
  function Outstanding(s: WatchState): seq<u64> {
    s.waiting + s.updated
  }

  /** The second half of `check_and_set_callback` (59-81): hand the pending
      ids over as a new batch, or, when there are none, fire the previous
      sink and arm the caller's. */
  function Deliver(s: WatchState, sp: Option<SinkId>): (r: Step)
    requires Parallel(s) && s.waiting == []
    ensures Parallel(r.next) && r.out.Some?
    ensures |r.out.value.ids| == |r.out.value.types|
    ensures Outstanding(r.next) == Outstanding(s)
    ensures r.out.value.ids == s.updated
    ensures r.out.value.sequence == 0 <==> s.updated == []
    ensures r.next.expireTime == s.expireTime
    ensures s.updated == [] ==>
      && r.next.sink == sp && r.next.fired == s.fired + Woken(s.sink)
      && r.next.sequence == s.sequence && r.next.waiting == []
    ensures s.updated != [] ==>
      && r.next.sink == s.sink && r.next.fired == s.fired
      && r.out.value.sequence == NextSequence(s.sequence) && r.next.sequence == r.out.value.sequence
      && r.next.waiting == s.updated && r.next.waitingTypes == s.updatedTypes && r.next.updated == []
  {
    if |s.updated| > 0 then
      var q := NextSequence(s.sequence);
      Step(s.(updated := s.waiting, updatedTypes := s.waitingTypes,
              waiting := s.updated, waitingTypes := s.updatedTypes,
              sequence := q),
           Some(Batch(q, s.updated, s.updatedTypes)))
    else
      Step(s.(fired := s.fired + Woken(s.sink), sink := sp), Some(Batch(0, [], [])))
  }

  /** `check_and_set_callback` (38-82): a client polls with the sequence of
      the batch it last received. The stored expiry time is always updated;
      a matching ack drops the committed batch; an unacknowledged batch is
      handed out again unchanged; otherwise the pending ids are delivered. */
  function SetCallback(s: WatchState, sp: Option<SinkId>, ack: u32, expireTime: u32): (r: Step)
    requires Parallel(s)
    ensures Parallel(r.next) && r.out.Some?
    ensures |r.out.value.ids| == |r.out.value.types|
    ensures r.next.expireTime == expireTime
    ensures s.waiting != [] && ack != s.sequence ==>
      && r.next.sink == s.sink && r.next.fired == s.fired && r.next.sequence == s.sequence
      && r.out.value == Batch(s.sequence, s.waiting, s.waitingTypes)
    ensures (s.waiting == [] || ack == s.sequence) && s.updated == [] ==>
      && r.next.sink == sp && r.next.fired == s.fired + Woken(s.sink)
      && r.out.value == Batch(0, [], []) && r.next.waiting == []
    ensures (s.waiting == [] || ack == s.sequence) && s.updated != [] ==>
      && r.next.sink == s.sink && r.next.fired == s.fired
      && r.out.value == Batch(NextSequence(s.sequence), s.updated, s.updatedTypes)
      && r.next.sequence == NextSequence(s.sequence)
      && r.next.waiting == s.updated && r.next.updated == []
  {
    var s := s.(expireTime := expireTime);
    if s.waiting != [] && ack == s.sequence then
      Deliver(s.(waiting := [], waitingTypes := []), sp)
    else if s.waiting != [] then
      Step(s, Some(Batch(s.sequence, s.waiting, s.waitingTypes)))
    else
      Deliver(s, sp)
  }

  /** `check_and_clear_callback` (84-104): only the armed sink may disarm
      itself; on the way out it takes the pending ids as a new batch when
      no batch is waiting for an ack. */
  function ClearCallback(s: WatchState, sp: Option<SinkId>): (r: Step)
    requires Parallel(s)
    ensures Parallel(r.next)
    ensures sp != s.sink ==> r == Step(s, None)
    ensures sp == s.sink ==> r.next.sink == None
    ensures Outstanding(r.next) == Outstanding(s)
    ensures r.out.Some? ==> r.out.value.ids == s.updated && r.out.value.sequence != 0
    ensures r.next.fired == s.fired && r.next.expireTime == s.expireTime
    ensures sp == s.sink && s.updated != [] && s.waiting == [] ==>
      && r.out == Some(Batch(NextSequence(s.sequence), s.updated, s.updatedTypes))
      && r.next.sequence == NextSequence(s.sequence)
      && r.next.waiting == s.updated && r.next.updated == []
    ensures !(sp == s.sink && s.updated != [] && s.waiting == []) ==>
      && r.out.None? && r.next.sequence == s.sequence
      && r.next.waiting == s.waiting && r.next.updated == s.updated
  {
    if sp == s.sink then
      if |s.updated| > 0 && s.waiting == [] then
        var q := NextSequence(s.sequence);
        Step(s.(updated := s.waiting, updatedTypes := s.waitingTypes,
                waiting := s.updated, waitingTypes := s.updatedTypes,
                sequence := q, sink := None),
             Some(Batch(q, s.updated, s.updatedTypes)))
      else
        Step(s.(sink := None), None)
    else
      Step(s, None)
  }

  /** `notify_watch` (106-114): record one change and wake the armed sink,
      which is then disarmed. */
  function Notify(s: WatchState, cacheId: u64, t: NotifyType): (r: WatchState)
    requires Parallel(s)
    ensures Parallel(r)
    ensures Outstanding(r) == Outstanding(s) + [cacheId]
    ensures r.updatedTypes == s.updatedTypes + [t]
    ensures r.sink == None
    ensures r.fired == s.fired + Woken(s.sink)
    ensures r.expireTime == s.expireTime && r.sequence == s.sequence
  {
    s.(updated := s.updated + [cacheId], updatedTypes := s.updatedTypes + [t],
       sink := None, fired := s.fired + Woken(s.sink))
  }

  /** `is_expired`: the watch was not polled before its deadline. */
  predicate IsExpired(s: WatchState, currTime: u32) {
    s.expireTime < currTime
  }

  /** A stale ack gets the committed batch and the current sequence, and
      changes only the expiry time; so repeating it returns the identical
      batch. */
  lemma StaleAckRedelivers(s: WatchState, sp: Option<SinkId>, sp2: Option<SinkId>, ack: u32, e1: u32, e2: u32)
    requires Parallel(s) && s.waiting != [] && ack != s.sequence
    ensures SetCallback(s, sp, ack, e1) == Step(s.(expireTime := e1), Some(Batch(s.sequence, s.waiting, s.waitingTypes)))
    ensures SetCallback(SetCallback(s, sp, ack, e1).next, sp2, ack, e2).out == SetCallback(s, sp, ack, e1).out
  {
  }

  /** An ack matching the committed batch drops it for good: the new state
      waits for nothing older than the pending ids. */
  lemma MatchingAckClears(s: WatchState, sp: Option<SinkId>, e: u32)
    requires Parallel(s) && s.waiting != []
    ensures Outstanding(SetCallback(s, sp, s.sequence, e).next) == s.updated
    ensures SetCallback(s, sp, s.sequence, e).out.value.ids == s.updated
  {
  }

  /** A delivered batch, acknowledged with the sequence it came with, is
      removed; nothing else is lost. */
  lemma DeliverThenAck(s: WatchState, sp: Option<SinkId>, sp2: Option<SinkId>, ack: u32, e1: u32, e2: u32)
    requires Parallel(s) && s.waiting == [] && s.updated != []
    ensures var r := SetCallback(s, sp, ack, e1);
      && r.out.value.ids == s.updated
      && r.out.value.sequence != 0
      && r.next.waiting == s.updated
      && var r2 := SetCallback(r.next, sp2, r.out.value.sequence, e2);
         Outstanding(r2.next) == []
  {
  }

  /** At-least-once delivery: an id leaves the outstanding ids only through
      an ack matching the batch that carried it. Every other step keeps the
      outstanding ids as a prefix of the new ones. */
  lemma OutstandingKept(s: WatchState, sp: Option<SinkId>, ack: u32, e: u32, cacheId: u64, t: NotifyType)
    requires Parallel(s)
    ensures !(s.waiting != [] && ack == s.sequence) ==>
      Outstanding(SetCallback(s, sp, ack, e).next) == Outstanding(s)
    ensures Outstanding(ClearCallback(s, sp).next) == Outstanding(s)
    ensures Outstanding(Notify(s, cacheId, t)) == Outstanding(s) + [cacheId]
  {
  }

  /** Long polling: a poll that finds nothing to deliver arms the caller's
      sink, and the next change wakes exactly that sink, once. */
  lemma ArmedSinkWoken(s: WatchState, sp: SinkId, ack: u32, e: u32, cacheId: u64, t: NotifyType)
    requires Parallel(s) && (s.waiting == [] || ack == s.sequence) && s.updated == []
    ensures var armed := SetCallback(s, Some(sp), ack, e).next;
      && Notify(armed, cacheId, t).fired == s.fired + Woken(s.sink) + [sp]
      && Notify(armed, cacheId, t).sink == None
      && Outstanding(Notify(armed, cacheId, t)) == [cacheId]
  {
  }

  /** `Notify` on every watch of `ids` (the live ids an item is registered
      with); the others are untouched. */
  function NotifyAll(m: map<u32, WatchState>, ids: set<u32>, cacheId: u64, t: NotifyType): (r: map<u32, WatchState>)
    requires forall id :: id in m ==> Parallel(m[id])
    ensures r.Keys == m.Keys
    ensures forall id :: id in r ==> Parallel(r[id])
    ensures forall id :: id in m && id !in ids ==> r[id] == m[id]
  {
    map id | id in m :: if id in ids then Notify(m[id], cacheId, t) else m[id]
  }

  /** An item without watches notifies nobody. */
  lemma NotifyAllNone(m: map<u32, WatchState>, cacheId: u64, t: NotifyType)
    requires forall id :: id in m ==> Parallel(m[id])
    ensures NotifyAll(m, {}, cacheId, t) == m
  {
  }

  /** `after` arises from the watch state `before` by notifications
      only: its pending ids and their types extended, the sinks fired
      extended, the armed sink kept or cleared, and nothing else changed. */
  ghost predicate Grown(before: WatchState, after: WatchState) {
    && after.expireTime == before.expireTime
    && after.sequence == before.sequence
    && after.waiting == before.waiting
    && after.waitingTypes == before.waitingTypes
    && |before.updated| <= |after.updated|
    && after.updated[..|before.updated|] == before.updated
    && |before.updatedTypes| <= |after.updatedTypes|
    && after.updatedTypes[..|before.updatedTypes|] == before.updatedTypes
    && (after.sink == before.sink || after.sink == None)
    && |before.fired| <= |after.fired|
    && after.fired[..|before.fired|] == before.fired
  }

  /** The same watches, each grown by notifications only. */
  ghost predicate Notified(before: map<u32, WatchState>, after: map<u32, WatchState>) {
    && after.Keys == before.Keys
    && forall id :: id in before ==> Grown(before[id], after[id])
  }

  lemma NotifiedRefl(m: map<u32, WatchState>)
    ensures Notified(m, m)
  {
    forall id | id in m
      ensures Grown(m[id], m[id])
    {
      assert m[id].updated[..|m[id].updated|] == m[id].updated;
      assert m[id].updatedTypes[..|m[id].updatedTypes|] == m[id].updatedTypes;
      assert m[id].fired[..|m[id].fired|] == m[id].fired;
    }
  }

  /** One `notify_watch` of `Cache_Watch` (106-114) only grows the state. */
  lemma NotifyGrown(s: WatchState, cacheId: u64, t: NotifyType)
    requires Parallel(s)
    ensures Grown(s, Notify(s, cacheId, t))
  {
    var r := Notify(s, cacheId, t);
    assert r.updated[..|s.updated|] == s.updated;
    assert r.updatedTypes[..|s.updatedTypes|] == s.updatedTypes;
    assert r.fired[..|s.fired|] == s.fired;
  }

  lemma NotifyAllNotified(m: map<u32, WatchState>, ids: set<u32>, cacheId: u64, t: NotifyType)
    requires forall id :: id in m ==> Parallel(m[id])
    ensures Notified(m, NotifyAll(m, ids, cacheId, t))
  {
    var r := NotifyAll(m, ids, cacheId, t);
    NotifiedRefl(m);
    forall id | id in m && id in ids
      ensures Grown(m[id], r[id])
    {
      NotifyGrown(m[id], cacheId, t);
    }
  }

  lemma GrownTrans(a: WatchState, b: WatchState, c: WatchState)
    requires Grown(a, b) && Grown(b, c)
    ensures Grown(a, c)
  {
    assert c.updated[..|a.updated|] == c.updated[..|b.updated|][..|a.updated|];
    assert c.updatedTypes[..|a.updatedTypes|] == c.updatedTypes[..|b.updatedTypes|][..|a.updatedTypes|];
    assert c.fired[..|a.fired|] == c.fired[..|b.fired|][..|a.fired|];
  }

  lemma NotifiedTrans(a: map<u32, WatchState>, b: map<u32, WatchState>, c: map<u32, WatchState>)
    requires Notified(a, b) && Notified(b, c)
    ensures Notified(a, c)
  {
    forall id | id in a
      ensures Grown(a[id], c[id])
    {
      GrownTrans(a[id], b[id], c[id]);
    }
  }

  /** One `Cache_Watch` object. Its methods work in place on the fields and
      are specified by the pure steps above. */
  class CacheWatch {
    const watchId: u32
    var expireTime: u32
    var sequence: u32
    var updatedList: seq<u64>
    var updatedTypeList: seq<NotifyType>
    var waitUpdatedList: seq<u64>
    var waitUpdatedTypeList: seq<NotifyType>
    var sink: Option<SinkId>
    ghost var fired: seq<SinkId>

    ghost function State(): WatchState
      reads this
    {
      WatchState(expireTime, sequence, updatedList, updatedTypeList,
                 waitUpdatedList, waitUpdatedTypeList, sink, fired)
    }

    ghost predicate Valid()
      reads this
    {
      Parallel(State())
    }

    /** `Cache_Watch(watch_id, expire_time)` (31-35). */
    constructor (id: u32, expire: u32)
      ensures watchId == id && Valid() && State() == NewWatch(expire)
    {
      watchId := id;
      expireTime := expire;
      sequence := 0;
      updatedList, updatedTypeList := [], [];
      waitUpdatedList, waitUpdatedTypeList := [], [];
      sink := None;
      fired := [];
    }

    /** Moves the pending ids to the committed list (the swap at 69-70 and
        98-99) under a new sequence, and appends them to the caller's
        lists. */
    method Commit(ids: seq<u64>, types: seq<NotifyType>)
      returns (q: u32, ids': seq<u64>, types': seq<NotifyType>)
      requires Valid()
      modifies this
      ensures Valid()
      ensures q == NextSequence(old(sequence)) && sequence == q
      ensures ids' == ids + old(updatedList) && types' == types + old(updatedTypeList)
      ensures updatedList == old(waitUpdatedList) && updatedTypeList == old(waitUpdatedTypeList)
      ensures waitUpdatedList == old(updatedList) && waitUpdatedTypeList == old(updatedTypeList)
      ensures expireTime == old(expireTime) && sink == old(sink) && fired == old(fired)
    {
      ids', types' := ids + updatedList, types + updatedTypeList;
      updatedList, waitUpdatedList := waitUpdatedList, updatedList;
      updatedTypeList, waitUpdatedTypeList := waitUpdatedTypeList, updatedTypeList;
      sequence := NextSequence(sequence);
      q := sequence;
    }

    /** `check_and_set_callback`: `ids` and `types` are the caller's lists,
        which receive the batch. */
    method CheckAndSetCallback(sp: Option<SinkId>, ack: u32, expire: u32, ids: seq<u64>, types: seq<NotifyType>)
      returns (q: u32, ids': seq<u64>, types': seq<NotifyType>)
      requires Valid()
      modifies this
      ensures Valid()
      ensures var r := SetCallback(old(State()), sp, ack, expire);
        && State() == r.next
        && q == r.out.value.sequence
        && ids' == ids + r.out.value.ids
        && types' == types + r.out.value.types
    {
      expireTime := expire;
      if waitUpdatedList != [] {
        if ack == sequence {
          waitUpdatedList, waitUpdatedTypeList := [], [];
        } else {
          ids', types' := ids + waitUpdatedList, types + waitUpdatedTypeList;
          q := sequence;
          return;
        }
      }
      if |updatedList| > 0 {
        q, ids', types' := Commit(ids, types);
      } else {
        if sink.Some? {
          fired := fired + [sink.value];
        }
        sink := sp;
        q, ids', types' := 0, ids, types;
      }
    }

    /** `check_and_clear_callback`: `q0` is the caller's sequence variable,
        written only when a batch is handed out. */
    method CheckAndClearCallback(sp: Option<SinkId>, q0: u32, ids: seq<u64>, types: seq<NotifyType>)
      returns (q: u32, ids': seq<u64>, types': seq<NotifyType>)
      requires Valid()
      modifies this
      ensures Valid()
      ensures var r := ClearCallback(old(State()), sp);
        && State() == r.next
        && q == (if r.out.Some? then r.out.value.sequence else q0)
        && ids' == ids + (if r.out.Some? then r.out.value.ids else [])
        && types' == types + (if r.out.Some? then r.out.value.types else [])
    {
      q, ids', types' := q0, ids, types;
      if sp == sink {
        if |updatedList| > 0 && waitUpdatedList == [] {
          q, ids', types' := Commit(ids, types);
        }
        sink := None;
      }
    }

    /** `notify_watch`. */
    method NotifyWatch(cacheId: u64, t: NotifyType)
      requires Valid()
      modifies this
      ensures Valid()
      ensures State() == Notify(old(State()), cacheId, t)
    {
      updatedList := updatedList + [cacheId];
      updatedTypeList := updatedTypeList + [t];
      if sink.Some? {
        fired := fired + [sink.value];
        sink := None;
      }
    }
  }

  /** The states of the watches filed in `wm`. */
  ghost function States(wm: map<u32, CacheWatch>): map<u32, WatchState>
    reads wm.Values
  {
    map id | id in wm :: wm[id].State()
  }

  /** Each watch of `wm` is sound and filed under its own id (so distinct
      ids name distinct watches). */
  ghost predicate Registered(wm: map<u32, CacheWatch>)
    reads wm.Values
  {
    forall id :: id in wm ==> wm[id].watchId == id && wm[id].Valid()
  }

  /** Tells the watch filed under `id` one change; the other watches of
      `wm` are untouched. */
  method NotifyFiled(wm: map<u32, CacheWatch>, id: u32, cacheId: u64, t: NotifyType)
    requires Registered(wm) && id in wm
    modifies wm[id]
    ensures Registered(wm)
    ensures States(wm) == old(States(wm))[id := Notify(old(States(wm))[id], cacheId, t)]
  {
    wm[id].NotifyWatch(cacheId, t);
  }

  /** Calls `check_and_set_callback` on the watch filed under `id`; the
      other watches of `wm` are untouched. */
  method SetFiled(wm: map<u32, CacheWatch>, id: u32, sp: Option<SinkId>, ack: u32, expire: u32,
                  ids: seq<u64>, types: seq<NotifyType>)
    returns (q: u32, ids': seq<u64>, types': seq<NotifyType>)
    requires Registered(wm) && id in wm
    modifies wm[id]
    ensures Registered(wm)
    ensures var r := SetCallback(old(States(wm))[id], sp, ack, expire);
      && States(wm) == old(States(wm))[id := r.next]
      && q == r.out.value.sequence
      && ids' == ids + r.out.value.ids
      && types' == types + r.out.value.types
  {
    q, ids', types' := wm[id].CheckAndSetCallback(sp, ack, expire, ids, types);
  }

  /** Calls `check_and_clear_callback` on the watch filed under `id`; the
      other watches of `wm` are untouched. */
  method ClearFiled(wm: map<u32, CacheWatch>, id: u32, sp: Option<SinkId>, q0: u32,
                    ids: seq<u64>, types: seq<NotifyType>)
    returns (q: u32, ids': seq<u64>, types': seq<NotifyType>)
    requires Registered(wm) && id in wm
    modifies wm[id]
    ensures Registered(wm)
    ensures var r := ClearCallback(old(States(wm))[id], sp);
      && States(wm) == old(States(wm))[id := r.next]
      && q == (if r.out.Some? then r.out.value.sequence else q0)
      && ids' == ids + (if r.out.Some? then r.out.value.ids else [])
      && types' == types + (if r.out.Some? then r.out.value.types else [])
  {
    q, ids', types' := wm[id].CheckAndClearCallback(sp, q0, ids, types);
  }

  /** The watches `expire_watchs` of the manager keeps at `now`: those not expired. */
  function Unexpired(m: map<u32, WatchState>, now: u32): (r: map<u32, WatchState>)
    ensures forall id :: id in r <==> id in m && !IsExpired(m[id], now)
    ensures forall id :: id in r ==> r[id] == m[id]
  {
    map id | id in m && !IsExpired(m[id], now) :: m[id]
  }

  /** Sweeping the watches at a later time subsumes a sweep at an earlier
      one: only the last sweep's time matters. */
  lemma UnexpiredLater(m: map<u32, WatchState>, t1: u32, t2: u32)
    requires t1 <= t2
    ensures Unexpired(Unexpired(m, t1), t2) == Unexpired(m, t2)
  {
  }

  /** The states of watches that did not change did not change. */
  twostate lemma StatesUnchanged(wm: map<u32, CacheWatch>)
    requires forall id :: id in wm ==> unchanged(wm[id])
    ensures States(wm) == old(States(wm))
  {
  }

  /** Files a fresh watch with deadline `expire` under the unused id
      `id` (the construction and insertion in `create_watch`). */
  method Enrol(wm: map<u32, CacheWatch>, id: u32, expire: u32) returns (wm': map<u32, CacheWatch>)
    requires Registered(wm) && id !in wm
    ensures Registered(wm') && wm'.Keys == wm.Keys + {id}
    ensures States(wm') == old(States(wm))[id := NewWatch(expire)]
  {
    var w := new CacheWatch(id, expire);
    wm' := wm[id := w];
  }

  /** Erases from `wm` every watch whose deadline is before `now` (the
      loop of `expire_watchs`). */
  method DropExpired(wm: map<u32, CacheWatch>, now: u32) returns (wm': map<u32, CacheWatch>)
    requires Registered(wm)
    ensures Registered(wm') && wm'.Values <= wm.Values
    ensures States(wm') == Unexpired(old(States(wm)), now)
  {
    wm' := wm;
    var rest := wm.Keys;
    while rest != {}
      invariant rest <= wm.Keys && wm'.Keys <= wm.Keys
      invariant forall id :: id in wm ==> (id in wm' <==> id in rest || !IsExpired(wm[id].State(), now))
      invariant forall id :: id in wm' ==> wm'[id] == wm[id]
      decreases rest
    {
      var id :| id in rest;
      if wm'[id].expireTime < now {
        wm' := wm' - {id};
      }
      rest := rest - {id};
    }
    assert States(wm') == Unexpired(States(wm), now);
  }
}
