/** The linkage of items: the hash index `cache_hash_map_` from keys to
    item handles and the expiration buckets `expire_list_`. An item is
    linked when the index maps its key to it; a linked item sits in exactly
    the bucket its `expiration_id` names, and only linked items sit in
    buckets. The lemmas are the steps `do_link`, `do_unlink` and the
    re-bucketing of `expire_items` and `update_expiration` take. */
module Store {
  import opened CacheTypes
  import opened Seqs
  import Expiration

  type Arena = map<Handle, Item>
  type Index = map<Key, Handle>
  type Buckets = seq<seq<Handle>>

  ghost predicate IsLinked(items: Arena, index: Index, h: Handle) {
    h in items && KeyOf(items[h]) in index && index[KeyOf(items[h])] == h
  }

  /** The index points at live items stored under the key they carry. */
  ghost predicate IndexOk(items: Arena, index: Index) {
    forall k :: k in index ==> index[k] in items && KeyOf(items[index[k]]) == k
  }

  /** 34 buckets, none holding a handle twice. */
  ghost predicate BucketsShape(lists: Buckets) {
    && |lists| == Expiration.BUCKETS
    && (forall i :: 0 <= i < |lists| ==> NoDup(lists[i]))
  }

  /** Only linked items sit in buckets, each in the bucket it names. */
  ghost predicate BucketsSound(items: Arena, index: Index, lists: Buckets) {
    forall i, h {:trigger h in lists[i]} :: 0 <= i < |lists| && h in lists[i] ==>
      IsLinked(items, index, h) && items[h].expirationId == i
  }

  /** Every linked item sits in the bucket it names. */
  ghost predicate BucketsComplete(items: Arena, index: Index, lists: Buckets) {
    forall h :: IsLinked(items, index, h) ==>
      items[h].expirationId < |lists| && h in lists[items[h].expirationId]
  }

  ghost predicate BucketsOk(items: Arena, index: Index, lists: Buckets) {
    BucketsShape(lists) && BucketsSound(items, index, lists) && BucketsComplete(items, index, lists)
  }

  ghost predicate Linkage(items: Arena, index: Index, lists: Buckets) {
    IndexOk(items, index) && BucketsOk(items, index, lists)
  }

  /** The items the cache serves, by key. */
  ghost function Contents(items: Arena, index: Index): (m: map<Key, Item>)
    requires IndexOk(items, index)
    ensures m.Keys == index.Keys
    ensures forall k :: k in m ==> KeyOf(m[k]) == k
  {
    map k | k in index :: items[index[k]]
  }

  /** An index entry is the only way to be linked: the key's handle. */
  lemma LinkedByKey(items: Arena, index: Index, k: Key)
    requires IndexOk(items, index) && k in index
    ensures IsLinked(items, index, index[k])
  {
  }

  /** A handle no bucket holds when it is not linked. */
  lemma NotInBuckets(items: Arena, index: Index, lists: Buckets, h: Handle)
    requires BucketsSound(items, index, lists) && !IsLinked(items, index, h)
    ensures forall i :: 0 <= i < |lists| ==> h !in lists[i]
  {
  }

  /** No key maps to a handle that is not linked. */
  lemma NotIndexed(items: Arena, index: Index, h: Handle)
    requires IndexOk(items, index) && !IsLinked(items, index, h)
    ensures forall k :: k in index ==> index[k] != h
  {
  }

  // ---- the served contents after each step ----

  lemma ContentsLink(items: Arena, index: Index, h: Handle, it: Item)
    requires IndexOk(items, index)
    requires h in items && KeyOf(it) == KeyOf(items[h]) && KeyOf(it) !in index
    ensures IndexOk(items[h := it], index[KeyOf(it) := h])
    ensures Contents(items[h := it], index[KeyOf(it) := h]) == Contents(items, index)[KeyOf(it) := it]
  {
    NotIndexedLinkKey(items, index, h, it);
  }

  lemma NotIndexedLinkKey(items: Arena, index: Index, h: Handle, it: Item)
    requires IndexOk(items, index)
    requires h in items && KeyOf(it) == KeyOf(items[h]) && KeyOf(it) !in index
    ensures forall k :: k in index ==> index[k] != h
  {
  }

  lemma ContentsUnlink(items: Arena, index: Index, h: Handle)
    requires IndexOk(items, index) && IsLinked(items, index, h)
    ensures IndexOk(items, index - {KeyOf(items[h])})
    ensures Contents(items, index - {KeyOf(items[h])}) == Contents(items, index) - {KeyOf(items[h])}
  {
  }

  lemma ContentsUnlinked(items: Arena, index: Index, h: Handle, it: Item)
    requires IndexOk(items, index) && !IsLinked(items, index, h)
    ensures IndexOk(items[h := it], index) && IndexOk(items - {h}, index)
    ensures Contents(items[h := it], index) == Contents(items, index)
    ensures Contents(items - {h}, index) == Contents(items, index)
  {
    NotIndexed(items, index, h);
  }

  lemma ContentsSameKey(items: Arena, index: Index, h: Handle, it: Item)
    requires IndexOk(items, index) && IsLinked(items, index, h) && KeyOf(it) == KeyOf(items[h])
    ensures IndexOk(items[h := it], index)
    ensures Contents(items[h := it], index) == Contents(items, index)[KeyOf(it) := it]
  {
  }

  // ---- do_link ----

  lemma LinkOthers(items: Arena, index: Index, h: Handle, it: Item)
    requires IndexOk(items, index)
    requires h in items && KeyOf(it) == KeyOf(items[h]) && KeyOf(it) !in index
    ensures forall x :: x != h ==>
      (IsLinked(items[h := it], index[KeyOf(it) := h], x) <==> IsLinked(items, index, x))
  {
  }

  lemma LinkSound(items: Arena, index: Index, lists: Buckets, h: Handle, it: Item)
    requires IndexOk(items, index) && BucketsSound(items, index, lists)
    requires h in items && KeyOf(it) == KeyOf(items[h]) && KeyOf(it) !in index
    requires it.expirationId < |lists|
    ensures BucketsSound(items[h := it], index[KeyOf(it) := h],
                         lists[it.expirationId := lists[it.expirationId] + [h]])
  {
    var items', index' := items[h := it], index[KeyOf(it) := h];
    var e := it.expirationId;
    var lists' := lists[e := lists[e] + [h]];
    LinkOthers(items, index, h, it);
    forall i, x | 0 <= i < |lists'| && x in lists'[i]
      ensures IsLinked(items', index', x) && items'[x].expirationId == i
    {
      if x != h {
        assert x in lists[i];
      }
    }
  }

  lemma LinkComplete(items: Arena, index: Index, lists: Buckets, h: Handle, it: Item)
    requires IndexOk(items, index) && BucketsComplete(items, index, lists)
    requires h in items && KeyOf(it) == KeyOf(items[h]) && KeyOf(it) !in index
    requires it.expirationId < |lists|
    ensures BucketsComplete(items[h := it], index[KeyOf(it) := h],
                            lists[it.expirationId := lists[it.expirationId] + [h]])
  {
    LinkOthers(items, index, h, it);
  }

  /** `do_link`: index the item under its key and append it to its bucket. */
  lemma LinkStep(items: Arena, index: Index, lists: Buckets, h: Handle, it: Item)
    requires Linkage(items, index, lists)
    requires h in items && KeyOf(it) == KeyOf(items[h]) && KeyOf(it) !in index
    requires it.expirationId < |lists|
    ensures var lists' := lists[it.expirationId := lists[it.expirationId] + [h]];
      && Linkage(items[h := it], index[KeyOf(it) := h], lists')
      && IsLinked(items[h := it], index[KeyOf(it) := h], h)
      && Contents(items[h := it], index[KeyOf(it) := h]) == Contents(items, index)[KeyOf(it) := it]
  {
    var e := it.expirationId;
    NotInBuckets(items, index, lists, h);
    NoDupAppend(lists[e], h);
    LinkSound(items, index, lists, h, it);
    LinkComplete(items, index, lists, h, it);
    ContentsLink(items, index, h, it);
  }

  // ---- do_unlink ----

  lemma UnlinkOthers(items: Arena, index: Index, h: Handle)
    requires IndexOk(items, index) && IsLinked(items, index, h)
    ensures forall x :: x != h ==>
      (IsLinked(items, index - {KeyOf(items[h])}, x) <==> IsLinked(items, index, x))
    ensures !IsLinked(items, index - {KeyOf(items[h])}, h)
  {
  }

  lemma UnlinkSound(items: Arena, index: Index, lists: Buckets, h: Handle)
    requires IndexOk(items, index) && BucketsSound(items, index, lists) && IsLinked(items, index, h)
    requires items[h].expirationId < |lists|
    ensures var e := items[h].expirationId;
      BucketsSound(items, index - {KeyOf(items[h])}, lists[e := Remove(lists[e], h)])
  {
    var e := items[h].expirationId;
    var lists' := lists[e := Remove(lists[e], h)];
    var index' := index - {KeyOf(items[h])};
    UnlinkOthers(items, index, h);
    forall i, x | 0 <= i < |lists'| && x in lists'[i]
      ensures IsLinked(items, index', x) && items[x].expirationId == i
    {
      assert x in lists[i];
    }
  }

  lemma UnlinkComplete(items: Arena, index: Index, lists: Buckets, h: Handle)
    requires IndexOk(items, index) && BucketsComplete(items, index, lists) && IsLinked(items, index, h)
    ensures var e := items[h].expirationId;
      BucketsComplete(items, index - {KeyOf(items[h])}, lists[e := Remove(lists[e], h)])
  {
    UnlinkOthers(items, index, h);
  }

  /** `do_unlink`'s removal from both structures (the item record itself
      is unchanged by this step). */
  lemma UnlinkStep(items: Arena, index: Index, lists: Buckets, h: Handle)
    requires Linkage(items, index, lists) && IsLinked(items, index, h)
    ensures var e := items[h].expirationId;
      && e < |lists|
      && var lists' := lists[e := Remove(lists[e], h)];
         var index' := index - {KeyOf(items[h])};
         && Linkage(items, index', lists')
         && !IsLinked(items, index', h)
         && Contents(items, index') == Contents(items, index) - {KeyOf(items[h])}
  {
    var e := items[h].expirationId;
    RemoveNoDup(lists[e], h);
    UnlinkOthers(items, index, h);
    UnlinkSound(items, index, lists, h);
    UnlinkComplete(items, index, lists, h);
    ContentsUnlink(items, index, h);
  }

  // ---- records of unlinked items ----

  lemma UnlinkedOthers(items: Arena, index: Index, h: Handle, it: Item)
    requires IndexOk(items, index) && !IsLinked(items, index, h)
    ensures forall x :: (IsLinked(items[h := it], index, x) <==> IsLinked(items, index, x))
  {
    NotIndexed(items, index, h);
  }

  lemma RemovedOthers(items: Arena, index: Index, h: Handle)
    requires IndexOk(items, index) && !IsLinked(items, index, h)
    ensures forall x :: (IsLinked(items - {h}, index, x) <==> IsLinked(items, index, x))
  {
    NotIndexed(items, index, h);
  }

  /** Changing or adding the record of an item that is not linked. */
  lemma UpdateUnlinked(items: Arena, index: Index, lists: Buckets, h: Handle, it: Item)
    requires Linkage(items, index, lists) && !IsLinked(items, index, h)
    ensures Linkage(items[h := it], index, lists)
    ensures !IsLinked(items[h := it], index, h)
    ensures Contents(items[h := it], index) == Contents(items, index)
  {
    NotIndexed(items, index, h);
    UnlinkedOthers(items, index, h, it);
    NotInBuckets(items, index, lists, h);
    assert BucketsSound(items[h := it], index, lists);
    ContentsUnlinked(items, index, h, it);
  }

  /** Dropping the record of an item that is not linked (`free_item`). */
  lemma RemoveUnlinked(items: Arena, index: Index, lists: Buckets, h: Handle)
    requires Linkage(items, index, lists) && !IsLinked(items, index, h)
    ensures Linkage(items - {h}, index, lists)
    ensures Contents(items - {h}, index) == Contents(items, index)
  {
    NotIndexed(items, index, h);
    RemovedOthers(items, index, h);
    RemovedSound(items, index, lists, h);
    ContentsUnlinked(items, index, h, Item(0, [], [], [], 0, 0, 0, 0, 0, 0, 0, {}));
  }

  lemma RemovedSound(items: Arena, index: Index, lists: Buckets, h: Handle)
    requires IndexOk(items, index) && BucketsSound(items, index, lists) && !IsLinked(items, index, h)
    ensures BucketsSound(items - {h}, index, lists)
  {
    RemovedOthers(items, index, h);
    forall i, x | 0 <= i < |lists| && x in lists[i]
      ensures IsLinked(items - {h}, index, x) && (items - {h})[x].expirationId == i
    {
      assert IsLinked(items, index, x);
    }
  }

  // ---- records of linked items ----

  lemma SameKeyOthers(items: Arena, index: Index, h: Handle, it: Item)
    requires IndexOk(items, index) && IsLinked(items, index, h) && KeyOf(it) == KeyOf(items[h])
    ensures forall x :: (IsLinked(items[h := it], index, x) <==> IsLinked(items, index, x))
  {
  }

  /** Changing a linked item in place, keeping its key and bucket. */
  lemma UpdateLinked(items: Arena, index: Index, lists: Buckets, h: Handle, it: Item)
    requires Linkage(items, index, lists) && IsLinked(items, index, h)
    requires KeyOf(it) == KeyOf(items[h]) && it.expirationId == items[h].expirationId
    ensures Linkage(items[h := it], index, lists)
    ensures IsLinked(items[h := it], index, h)
    ensures Contents(items[h := it], index) == Contents(items, index)[KeyOf(it) := it]
  {
    SameKeyOthers(items, index, h, it);
    assert BucketsSound(items[h := it], index, lists);
    ContentsSameKey(items, index, h, it);
  }

  lemma RebucketSound(items: Arena, index: Index, lists: Buckets, h: Handle, e': nat)
    requires IndexOk(items, index) && BucketsSound(items, index, lists) && IsLinked(items, index, h)
    requires items[h].expirationId < |lists| && e' < |lists|
    ensures var e := items[h].expirationId;
      var mid := lists[e := Remove(lists[e], h)];
      BucketsSound(items[h := items[h].(expirationId := e')], index, mid[e' := [h] + mid[e']])
  {
    var e := items[h].expirationId;
    var mid := lists[e := Remove(lists[e], h)];
    var lists' := mid[e' := [h] + mid[e']];
    var items' := items[h := items[h].(expirationId := e')];
    SameKeyOthers(items, index, h, items'[h]);
    forall i, x | 0 <= i < |lists'| && x in lists'[i]
      ensures IsLinked(items', index, x) && items'[x].expirationId == i
    {
      if x != h {
        assert x in mid[i];
        assert x in lists[i];
      }
    }
  }

  lemma RebucketComplete(items: Arena, index: Index, lists: Buckets, h: Handle, e': nat)
    requires IndexOk(items, index) && BucketsComplete(items, index, lists) && IsLinked(items, index, h)
    requires items[h].expirationId < |lists| && e' < |lists|
    ensures var e := items[h].expirationId;
      var mid := lists[e := Remove(lists[e], h)];
      BucketsComplete(items[h := items[h].(expirationId := e')], index, mid[e' := [h] + mid[e']])
  {
    var e := items[h].expirationId;
    var mid := lists[e := Remove(lists[e], h)];
    var lists' := mid[e' := [h] + mid[e']];
    var items' := items[h := items[h].(expirationId := e')];
    SameKeyOthers(items, index, h, items'[h]);
    forall x | IsLinked(items', index, x)
      ensures items'[x].expirationId < |lists'| && x in lists'[items'[x].expirationId]
    {
      if x != h {
        assert IsLinked(items, index, x);
        assert x in lists[items[x].expirationId];
      }
    }
  }

  /** A linked item sits in no bucket but its own. */
  lemma OnlyOwnBucket(items: Arena, index: Index, lists: Buckets, h: Handle)
    requires BucketsSound(items, index, lists) && h in items
    ensures forall i :: 0 <= i < |lists| && i != items[h].expirationId ==> h !in lists[i]
  {
  }

  lemma RebucketShape(lists: Buckets, h: Handle, e: nat, e': nat)
    requires BucketsShape(lists) && e < |lists| && e' < |lists|
    requires e' != e ==> h !in lists[e']
    ensures var mid := lists[e := Remove(lists[e], h)];
      BucketsShape(mid[e' := [h] + mid[e']])
  {
    var mid := lists[e := Remove(lists[e], h)];
    RemoveNoDup(lists[e], h);
    NoDupPrepend(mid[e'], h);
  }

  /** Moving a linked item to the front of bucket `e'` (`remove` then
      `push_front`, 286-288 and 649-651). */
  lemma Rebucket(items: Arena, index: Index, lists: Buckets, h: Handle, e': nat)
    requires Linkage(items, index, lists) && IsLinked(items, index, h)
    requires e' < |lists|
    ensures var e := items[h].expirationId;
      && e < |lists|
      && var mid := lists[e := Remove(lists[e], h)];
         var lists' := mid[e' := [h] + mid[e']];
         var items' := items[h := items[h].(expirationId := e')];
         && Linkage(items', index, lists')
         && IsLinked(items', index, h)
         && Contents(items', index) == Contents(items, index)[KeyOf(items[h]) := items'[h]]
  {
    var e := items[h].expirationId;
    OnlyOwnBucket(items, index, lists, h);
    RebucketShape(lists, h, e, e');
    var items' := items[h := items[h].(expirationId := e')];
    SameKeyOthers(items, index, h, items'[h]);
    RebucketSound(items, index, lists, h, e');
    RebucketComplete(items, index, lists, h, e');
    ContentsSameKey(items, index, h, items'[h]);
  }
}
