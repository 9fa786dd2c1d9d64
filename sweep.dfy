/** The manager's two scans over its expiration buckets: `flush`, which
    unlinks every record of one group, and `expire_items`, which unlinks
    the expired records of the buckets due for a sweep and moves each
    survivor to the finer bucket its remaining lifetime calls for. A scan
    walks one bucket at a time, front to back; saving the successor before
    a record is unlinked or moved means it visits exactly the handles the
    bucket held when its scan began, in that order, so the model scans
    that snapshot. */
module CacheSweep {
  import opened CacheTypes
  import opened Seqs
  import opened Expiration
  import opened Store
  import opened CacheState
  import opened Watch
  import opened CacheOps

  /** The store a scan leaves, the notifications it owes in the order it
      incurred them, and the records it unlinked, as they were then. */
  datatype Swept = Swept(s: MemState, notes: seq<Note>, gone: seq<Item>)

  /** The `notify_watch` calls owed for unlinking `gone` with `kind`. */
  function Notes(gone: seq<Item>, kind: NotifyType): (r: seq<Note>)
    ensures |r| == |gone|
    ensures forall m :: 0 <= m < |gone| ==> r[m] == Announce(gone[m], kind)
  {
    if gone == [] then [] else [Announce(gone[0], kind)] + Notes(gone[1..], kind)
  }

  lemma {:induction false} NotesAppend(a: seq<Item>, b: seq<Item>, kind: NotifyType)
    ensures Notes(a + b, kind) == Notes(a, kind) + Notes(b, kind)
  {
  }

  /** Two stretches of a sweep, one after the other. */
  function Then(a: Swept, b: Swept): Swept {
    Swept(b.s, a.notes + b.notes, a.gone + b.gone)
  }

  lemma ThenNothing(t: MemState, b: Swept)
    ensures Then(Swept(t, [], []), b) == b
  {
    assert [] + b.notes == b.notes && [] + b.gone == b.gone;
  }

  lemma ThenEnd(a: Swept, t: MemState)
    ensures Then(a, Swept(t, [], [])) == Swept(t, a.notes, a.gone)
  {
    assert a.notes + [] == a.notes && a.gone + [] == a.gone;
  }

  lemma ThenAssoc(a: Swept, b: Swept, c: Swept)
    ensures Then(Then(a, b), c) == Then(a, Then(b, c))
  {
    assert (a.notes + b.notes) + c.notes == a.notes + (b.notes + c.notes);
    assert (a.gone + b.gone) + c.gone == a.gone + (b.gone + c.gone);
  }

  /** A bucket snapshot still to be visited: distinct handles, all
      linked. */
  ghost predicate Scannable(s: MemState, hs: seq<Handle>) {
    NoDup(hs) && forall h :: h in hs ==> IsLinked(s.items, s.index, h)
  }

  lemma ScannableTail(s: MemState, hs: seq<Handle>)
    requires Scannable(s, hs) && hs != []
    ensures Scannable(s, hs[1..]) && hs[0] !in hs[1..] && IsLinked(s.items, s.index, hs[0])
  {
    forall i, j | 0 <= i < j < |hs[1..]| ensures hs[1..][i] != hs[1..][j] {
      assert hs[1..][i] == hs[i + 1] && hs[1..][j] == hs[j + 1];
    }
    forall m | 0 <= m < |hs[1..]| ensures hs[1..][m] != hs[0] {
      assert hs[1..][m] == hs[m + 1];
    }
  }

  /** A step on the linked record `h` that keeps every other record and
      every other index entry keeps the rest of the snapshot scannable. */
  lemma ScannableAfter(s: MemState, r: MemState, h: Handle, hs: seq<Handle>)
    requires Scannable(s, hs) && h !in hs && IsLinked(s.items, s.index, h) && OthersKept(s, r, h)
    requires forall k :: k in s.index && k != KeyOf(s.items[h]) ==> k in r.index && r.index[k] == s.index[k]
    ensures Scannable(r, hs)
  {
    forall y | y in hs ensures IsLinked(r.items, r.index, y) {
      assert KeyOf(s.items[y]) != KeyOf(s.items[h]);
    }
  }

  /** Every bucket of a sound store is a snapshot ready to scan. */
  lemma BucketScannable(cfg: Config, s: MemState, i: nat)
    requires Ok(cfg, s) && i < BUCKETS
    ensures i < |s.lists| && Scannable(s, s.lists[i])
    ensures forall h :: h in s.lists[i] ==> s.items[h].expirationId == i
  {
  }

  /** Unlinking the first record of a snapshot leaves the rest to scan. */
  lemma UnlinkFirst(cfg: Config, s: MemState, hs: seq<Handle>)
    requires Ok(cfg, s) && Scannable(s, hs) && hs != []
    ensures hs[0] in s.items && Holds(cfg, s, hs[0]) && s.items[hs[0]].refCount >= 1
    ensures s.items[hs[0]].expirationId < |s.lists|
    ensures var r := Unlink(cfg, s, hs[0]);
      && Ok(cfg, r) && Scannable(r, hs[1..]) && OthersKept(s, r, hs[0])
      && r.index == s.index - {KeyOf(s.items[hs[0]])}
      && Cached(r) == Cached(s) - {KeyOf(s.items[hs[0]])}
      && r.lists == s.lists[s.items[hs[0]].expirationId := Seqs.Remove(s.lists[s.items[hs[0]].expirationId], hs[0])]
  {
    var h := hs[0];
    ScannableTail(s, hs);
    UnlinkOk(cfg, s, h);
    UnlinkShape(cfg, s, h);
    var r := Unlink(cfg, s, h);
    ScannableAfter(s, r, h, hs[1..]);
  }

  // ---------------- flush ----------------

  /** The inner loop of `flush` (1089-1100) over one bucket snapshot:
      every record of group `g` is unlinked with FLUSHED. */
  function FlushScan(cfg: Config, s: MemState, g: u32, hs: seq<Handle>): (r: Swept)
    requires Ok(cfg, s) && Scannable(s, hs)
    ensures Ok(cfg, r.s)
    decreases |hs|
  {
    if hs == [] then Swept(s, [], [])
    else
      var h := hs[0];
      ScannableTail(s, hs);
      var it := s.items[h];
      if it.groupId != g then FlushScan(cfg, s, g, hs[1..])
      else
        UnlinkFirst(cfg, s, hs);
        var rest := FlushScan(cfg, Unlink(cfg, s, h), g, hs[1..]);
        Swept(rest.s, [Announce(it, Flushed)] + rest.notes, [it] + rest.gone)
  }

  /** `flush` (1084-1103) from bucket `i` on: the buckets in order. */
  function FlushFrom(cfg: Config, s: MemState, g: u32, i: nat): (r: Swept)
    requires Ok(cfg, s) && i <= BUCKETS
    ensures Ok(cfg, r.s)
    decreases BUCKETS - i
  {
    if i == BUCKETS then Swept(s, [], [])
    else
      BucketScannable(cfg, s, i);
      var b := FlushScan(cfg, s, g, s.lists[i]);
      var rest := FlushFrom(cfg, b.s, g, i + 1);
      Swept(rest.s, b.notes + rest.notes, b.gone + rest.gone)
  }

  /** The records of group `g` among `hs`, in order: a reference
      definition of what a scan unlinks. */
  ghost function Picked(items: Arena, g: u32, hs: seq<Handle>): seq<Item> {
    if hs == [] then []
    else (if hs[0] in items && items[hs[0]].groupId == g then [items[hs[0]]] else []) + Picked(items, g, hs[1..])
  }

  /** The records of group `g` in buckets `i` and up, bucket by bucket. */
  ghost function PickedFrom(s: MemState, g: u32, i: nat): seq<Item>
    decreases |s.lists| - i
  {
    if i >= |s.lists| then [] else Picked(s.items, g, s.lists[i]) + PickedFrom(s, g, i + 1)
  }

  /** What the records of `g` that a scan of `hs` visits leave of the
      cache. */
  ghost function Unflushed(c: map<Key, Item>, index: Index, g: u32, hs: seq<Handle>): map<Key, Item> {
    map k | k in c && !(k.group == g && k in index && index[k] in hs) :: c[k]
  }

  lemma UnflushedSkip(s: MemState, g: u32, hs: seq<Handle>)
    requires IndexOk(s.items, s.index) && Scannable(s, hs) && hs != [] && hs[0] in s.items && s.items[hs[0]].groupId != g
    ensures Unflushed(Cached(s), s.index, g, hs[1..]) == Unflushed(Cached(s), s.index, g, hs)
  {
    var h := hs[0];
    forall k | k in Cached(s) && k.group == g && k in s.index
      ensures s.index[k] in hs[1..] <==> s.index[k] in hs
    {
      assert KeyOf(s.items[s.index[k]]) == k;
    }
  }

  lemma UnflushedDrop(s: MemState, s1: MemState, g: u32, hs: seq<Handle>)
    requires IndexOk(s.items, s.index) && Scannable(s, hs) && hs != [] && hs[0] in s.items && s.items[hs[0]].groupId == g
    requires IndexOk(s1.items, s1.index)
    requires s1.index == s.index - {KeyOf(s.items[hs[0]])}
    requires Cached(s1) == Cached(s) - {KeyOf(s.items[hs[0]])}
    ensures Unflushed(Cached(s1), s1.index, g, hs[1..]) == Unflushed(Cached(s), s.index, g, hs)
  {
    var h := hs[0];
    var kh := KeyOf(s.items[h]);
    ScannableTail(s, hs);
    forall k | k in Cached(s1) && k.group == g
      ensures s1.index[k] in hs[1..] <==> s.index[k] in hs
    {
      assert KeyOf(s.items[s.index[k]]) == k;
    }
  }

  lemma {:induction false} PickedSame(items: Arena, items': Arena, g: u32, hs: seq<Handle>)
    requires forall y :: y in hs ==> (y in items' <==> y in items) && (y in items ==> items'[y] == items[y])
    ensures Picked(items', g, hs) == Picked(items, g, hs)
    decreases |hs|
  {
    if hs != [] {
      assert hs[0] in hs;
      PickedSame(items, items', g, hs[1..]);
    }
  }

  /** One bucket's scan unlinks the visited records of group `g`, in
      order, and announces each with FLUSHED. */
  lemma {:induction false} FlushScanGone(cfg: Config, s: MemState, g: u32, hs: seq<Handle>)
    requires Ok(cfg, s) && Scannable(s, hs)
    ensures var r := FlushScan(cfg, s, g, hs);
      r.gone == Picked(s.items, g, hs) && r.notes == Notes(r.gone, Flushed)
    decreases |hs|
  {
    if hs != [] {
      var h := hs[0];
      ScannableTail(s, hs);
      if s.items[h].groupId != g {
        FlushScanGone(cfg, s, g, hs[1..]);
      } else {
        UnlinkFirst(cfg, s, hs);
        var s1 := Unlink(cfg, s, h);
        FlushScanGone(cfg, s1, g, hs[1..]);
        PickedSame(s.items, s1.items, g, hs[1..]);
      }
    }
  }

  /** One bucket's scan keeps every record it does not visit and every
      other bucket. */
  lemma FlushScanKeeps(cfg: Config, s: MemState, g: u32, hs: seq<Handle>, e: nat)
    requires Ok(cfg, s) && Scannable(s, hs)
    requires forall h :: h in hs ==> s.items[h].expirationId == e
    ensures var r := FlushScan(cfg, s, g, hs);
      && (forall y :: y in s.items && y !in hs ==> y in r.s.items && r.s.items[y] == s.items[y])
      && |r.s.lists| == |s.lists|
      && (forall j :: 0 <= j < |s.lists| && j != e ==> r.s.lists[j] == s.lists[j])
  {
    FlushScanKeepsItems(cfg, s, g, hs, e);
    FlushScanKeepsLists(cfg, s, g, hs, e);
  }

  lemma {:induction false} FlushScanKeepsItems(cfg: Config, s: MemState, g: u32, hs: seq<Handle>, e: nat)
    requires Ok(cfg, s) && Scannable(s, hs)
    requires forall h :: h in hs ==> s.items[h].expirationId == e
    ensures var r := FlushScan(cfg, s, g, hs);
      forall y :: y in s.items && y !in hs ==> y in r.s.items && r.s.items[y] == s.items[y]
    decreases |hs|
  {
    if hs != [] {
      var h := hs[0];
      ScannableTail(s, hs);
      var r := FlushScan(cfg, s, g, hs);
      if s.items[h].groupId != g {
        FlushScanKeepsItems(cfg, s, g, hs[1..], e);
        assert r == FlushScan(cfg, s, g, hs[1..]);
        forall y | y in s.items && y !in hs ensures y in r.s.items && r.s.items[y] == s.items[y] {
          assert y !in hs[1..];
        }
      } else {
        FlushDropKeeps(cfg, s, hs, e);
        var s1 := Unlink(cfg, s, h);
        FlushScanKeepsItems(cfg, s1, g, hs[1..], e);
        assert r.s == FlushScan(cfg, s1, g, hs[1..]).s;
        forall y | y in s.items && y !in hs ensures y in r.s.items && r.s.items[y] == s.items[y] {
          assert y != h && y !in hs[1..];
          assert y in s1.items && s1.items[y] == s.items[y];
        }
      }
    }
  }

  lemma {:induction false} FlushScanKeepsLists(cfg: Config, s: MemState, g: u32, hs: seq<Handle>, e: nat)
    requires Ok(cfg, s) && Scannable(s, hs)
    requires forall h :: h in hs ==> s.items[h].expirationId == e
    ensures var r := FlushScan(cfg, s, g, hs);
      && |r.s.lists| == |s.lists|
      && (forall j :: 0 <= j < |s.lists| && j != e ==> r.s.lists[j] == s.lists[j])
    decreases |hs|
  {
    if hs != [] {
      var h := hs[0];
      ScannableTail(s, hs);
      if s.items[h].groupId != g {
        FlushScanKeepsLists(cfg, s, g, hs[1..], e);
      } else {
        FlushDropKeeps(cfg, s, hs, e);
        var s1 := Unlink(cfg, s, h);
        FlushScanKeepsLists(cfg, s1, g, hs[1..], e);
        assert FlushScan(cfg, s, g, hs).s == FlushScan(cfg, s1, g, hs[1..]).s;
      }
    }
  }

  /** Unlinking the first record of a snapshot of bucket `e` keeps every
      other record and every other bucket. */
  lemma FlushDropKeeps(cfg: Config, s: MemState, hs: seq<Handle>, e: nat)
    requires Ok(cfg, s) && Scannable(s, hs) && hs != []
    requires forall h :: h in hs ==> s.items[h].expirationId == e
    ensures hs[0] in s.items && Holds(cfg, s, hs[0]) && s.items[hs[0]].refCount >= 1
    ensures s.items[hs[0]].expirationId < |s.lists|
    ensures var s1 := Unlink(cfg, s, hs[0]);
      && Ok(cfg, s1) && Scannable(s1, hs[1..])
      && (forall h :: h in hs[1..] ==> s1.items[h].expirationId == e)
      && (forall y :: y in s.items && y != hs[0] ==> y in s1.items && s1.items[y] == s.items[y])
      && |s1.lists| == |s.lists|
      && (forall j :: 0 <= j < |s.lists| && j != e ==> s1.lists[j] == s.lists[j])
  {
    ScannableTail(s, hs);
    UnlinkFirst(cfg, s, hs);
    var s1 := Unlink(cfg, s, hs[0]);
    forall h | h in hs[1..] ensures s1.items[h].expirationId == e {
      assert h in hs && h != hs[0];
    }
  }

  /** One bucket's scan drops exactly the visited keys of group `g` from
      the cache. */
  lemma {:induction false} FlushScanCached(cfg: Config, s: MemState, g: u32, hs: seq<Handle>)
    requires Ok(cfg, s) && Scannable(s, hs)
    ensures Cached(FlushScan(cfg, s, g, hs).s) == Unflushed(Cached(s), s.index, g, hs)
    decreases |hs|
  {
    if hs == [] {
      assert Unflushed(Cached(s), s.index, g, hs) == Cached(s);
    } else {
      var h := hs[0];
      ScannableTail(s, hs);
      if s.items[h].groupId != g {
        FlushScanCached(cfg, s, g, hs[1..]);
        UnflushedSkip(s, g, hs);
      } else {
        UnlinkFirst(cfg, s, hs);
        var s1 := Unlink(cfg, s, h);
        FlushScanCached(cfg, s1, g, hs[1..]);
        UnflushedDrop(s, s1, g, hs);
      }
    }
  }

  /** The records of `g` in the buckets a flush has still to visit do
      not depend on the buckets and records it has visited. */
  lemma {:induction false} PickedFromSame(s: MemState, t: MemState, g: u32, i: nat)
    requires |t.lists| == |s.lists|
    requires forall j :: i <= j < |s.lists| ==> t.lists[j] == s.lists[j]
    requires forall j, y :: i <= j < |s.lists| && y in s.lists[j] ==>
      (y in t.items <==> y in s.items) && (y in s.items ==> t.items[y] == s.items[y])
    ensures PickedFrom(t, g, i) == PickedFrom(s, g, i)
    decreases |s.lists| - i
  {
    if i < |s.lists| {
      PickedSame(s.items, t.items, g, s.lists[i]);
      PickedFromSame(s, t, g, i + 1);
    }
  }

  /** The scan of bucket `i` leaves the records of the later buckets as
      they were. */
  lemma FlushLaterSame(cfg: Config, s: MemState, g: u32, i: nat)
    requires Ok(cfg, s) && i < BUCKETS
    ensures i < |s.lists| && Scannable(s, s.lists[i])
    ensures PickedFrom(FlushScan(cfg, s, g, s.lists[i]).s, g, i + 1) == PickedFrom(s, g, i + 1)
  {
    BucketScannable(cfg, s, i);
    var hs := s.lists[i];
    var b := FlushScan(cfg, s, g, hs);
    FlushScanKeeps(cfg, s, g, hs, i);
    forall j, y | i + 1 <= j < |s.lists| && y in s.lists[j] ensures y !in hs {
      assert s.items[y].expirationId == j;
    }
    PickedFromSame(s, b.s, g, i + 1);
  }

  /** Flushing buckets `i` and up unlinks, bucket by bucket, the records
      of group `g` in them and announces each with FLUSHED. */
  lemma {:induction false} FlushFromGone(cfg: Config, s: MemState, g: u32, i: nat)
    requires Ok(cfg, s) && i <= BUCKETS
    ensures var r := FlushFrom(cfg, s, g, i);
      r.gone == PickedFrom(s, g, i) && r.notes == Notes(r.gone, Flushed)
    decreases BUCKETS - i
  {
    if i < BUCKETS {
      BucketScannable(cfg, s, i);
      var b := FlushScan(cfg, s, g, s.lists[i]);
      var rest := FlushFrom(cfg, b.s, g, i + 1);
      assert b.gone == Picked(s.items, g, s.lists[i]) && b.notes == Notes(b.gone, Flushed) by {
        FlushScanGone(cfg, s, g, s.lists[i]);
      }
      assert rest.gone == PickedFrom(s, g, i + 1) && rest.notes == Notes(rest.gone, Flushed) by {
        FlushFromGone(cfg, b.s, g, i + 1);
        FlushLaterSame(cfg, s, g, i);
      }
      NotesAppend(b.gone, rest.gone, Flushed);
    } else {
      assert |s.lists| == BUCKETS;
    }
  }

  /** The cache without the keys of group `g` whose records name bucket
      `i` or a later one. */
  ghost function Above(c: map<Key, Item>, g: u32, i: nat): map<Key, Item> {
    map k | k in c && !(k.group == g && c[k].expirationId >= i) :: c[k]
  }

  /** The cache without the keys of group `g` whose records name bucket `i`. */
  ghost function Outside(c: map<Key, Item>, g: u32, i: nat): map<Key, Item> {
    map k | k in c && !(k.group == g && c[k].expirationId == i) :: c[k]
  }

  /** The keys a bucket's snapshot visits are the keys whose records name
      that bucket. */
  lemma UnflushedBucket(cfg: Config, s: MemState, g: u32, i: nat)
    requires Ok(cfg, s) && i < BUCKETS
    ensures i < |s.lists|
    ensures Unflushed(Cached(s), s.index, g, s.lists[i]) == Outside(Cached(s), g, i)
  {
    forall k | k in Cached(s) && k.group == g
      ensures s.index[k] in s.lists[i] <==> Cached(s)[k].expirationId == i
    {
      assert IsLinked(s.items, s.index, s.index[k]);
    }
  }

  lemma AboveStep(c: map<Key, Item>, g: u32, i: nat)
    ensures Above(Outside(c, g, i), g, i + 1) == Above(c, g, i)
  {
  }

  lemma AboveZero(c: map<Key, Item>, g: u32)
    ensures Above(c, g, 0) == map k | k in c && k.group != g :: c[k]
  {
  }

  /** Every record of a sound store names one of the 34 buckets. */
  lemma AboveNone(cfg: Config, s: MemState, g: u32)
    requires Ok(cfg, s)
    ensures Above(Cached(s), g, BUCKETS) == Cached(s)
  {
    forall k | k in Cached(s) ensures Cached(s)[k].expirationId < BUCKETS {
      assert IsLinked(s.items, s.index, s.index[k]);
    }
  }

  /** Flushing buckets `i` and up drops exactly the keys of group `g`
      whose records name one of those buckets. */
  lemma {:induction false} FlushFromCached(cfg: Config, s: MemState, g: u32, i: nat)
    requires Ok(cfg, s) && i <= BUCKETS
    ensures Cached(FlushFrom(cfg, s, g, i).s) == Above(Cached(s), g, i)
    decreases BUCKETS - i
  {
    if i < BUCKETS {
      FlushBucketCached(cfg, s, g, i);
      var b := FlushScan(cfg, s, g, s.lists[i]);
      FlushFromCached(cfg, b.s, g, i + 1);
      AboveStep(Cached(s), g, i);
    } else {
      AboveNone(cfg, s, g);
    }
  }

  /** One bucket of `FlushFrom`: its scan drops the keys of group `g` that
      name bucket `i`. */
  lemma FlushBucketCached(cfg: Config, s: MemState, g: u32, i: nat)
    requires Ok(cfg, s) && i < BUCKETS
    ensures i < |s.lists| && Scannable(s, s.lists[i])
    ensures var b := FlushScan(cfg, s, g, s.lists[i]);
      && Cached(b.s) == Outside(Cached(s), g, i)
      && FlushFrom(cfg, s, g, i).s == FlushFrom(cfg, b.s, g, i + 1).s
  {
    BucketScannable(cfg, s, i);
    FlushScanCached(cfg, s, g, s.lists[i]);
    UnflushedBucket(cfg, s, g, i);
  }

  /** What `flush` reports: the number of records it unlinked and the sum
      of their `total_size()`. */
  function Total(header: nat, gone: seq<Item>): nat {
    if gone == [] then 0 else TotalSize(header, gone[0]) + Total(header, gone[1..])
  }

  lemma {:induction false} TotalAppend(header: nat, a: seq<Item>, b: seq<Item>)
    ensures Total(header, a + b) == Total(header, a) + Total(header, b)
  {
    if a != [] {
      assert (a + b)[0] == a[0] && (a + b)[1..] == a[1..] + b;
      TotalAppend(header, a[1..], b);
    } else {
      assert a + b == b;
    }
  }

  /** One visit of the `flush` scan: the record at the head of the
      snapshot is unlinked when it belongs to group `g`. */
  lemma FlushScanUnfold(cfg: Config, s: MemState, g: u32, hs: seq<Handle>)
    requires Ok(cfg, s) && Scannable(s, hs) && hs != []
    ensures hs[0] in s.items && Scannable(s, hs[1..])
    ensures s.items[hs[0]].groupId == g ==>
      Holds(cfg, s, hs[0]) && s.items[hs[0]].refCount >= 1 && s.items[hs[0]].expirationId < |s.lists|
    ensures s.items[hs[0]].groupId == g ==>
      Ok(cfg, Unlink(cfg, s, hs[0])) && Scannable(Unlink(cfg, s, hs[0]), hs[1..])
    ensures s.items[hs[0]].groupId == g ==>
      var rest := FlushScan(cfg, Unlink(cfg, s, hs[0]), g, hs[1..]);
      FlushScan(cfg, s, g, hs) == Swept(rest.s, [Announce(s.items[hs[0]], Flushed)] + rest.notes, [s.items[hs[0]]] + rest.gone)
    ensures s.items[hs[0]].groupId != g ==> FlushScan(cfg, s, g, hs) == FlushScan(cfg, s, g, hs[1..])
  {
    ScannableTail(s, hs);
    if s.items[hs[0]].groupId == g {
      UnlinkFirst(cfg, s, hs);
    }
  }

  /** The visit of the `flush` scan to the head of the snapshot `hs`. */
  function FlushHead(cfg: Config, s: MemState, g: u32, hs: seq<Handle>): (r: Swept)
    requires Ok(cfg, s) && Scannable(s, hs) && hs != []
    ensures Ok(cfg, r.s) && Scannable(r.s, hs[1..])
  {
    FlushScanUnfold(cfg, s, g, hs);
    var it := s.items[hs[0]];
    if it.groupId == g then Swept(Unlink(cfg, s, hs[0]), [Announce(it, Flushed)], [it])
    else Swept(s, [], [])
  }

  /** The scan from position `k` of `hs` is its visit to `hs[k]`, then
      the scan from `k + 1`. */
  lemma FlushAdvance(cfg: Config, s: MemState, g: u32, hs: seq<Handle>, k: nat, done: Swept)
    requires Ok(cfg, s) && k < |hs| && Scannable(s, hs[k..])
    ensures var h := FlushHead(cfg, s, g, hs[k..]);
      && Scannable(h.s, hs[k + 1..])
      && Then(Then(done, h), FlushScan(cfg, h.s, g, hs[k + 1..])) == Then(done, FlushScan(cfg, s, g, hs[k..]))
  {
    assert hs[k..][1..] == hs[k + 1..];
    FlushScanUnfold(cfg, s, g, hs[k..]);
    var h := FlushHead(cfg, s, g, hs[k..]);
    ThenAssoc(done, h, FlushScan(cfg, h.s, g, hs[k + 1..]));
  }

  /** `flush` from bucket `i` is the scan of bucket `i`, then `flush` from
      bucket `i + 1`. */
  lemma FlushFromAdvance(cfg: Config, s: MemState, g: u32, i: nat, done: Swept)
    requires Ok(cfg, s) && i < BUCKETS
    ensures i < |s.lists| && Scannable(s, s.lists[i])
    ensures var b := FlushScan(cfg, s, g, s.lists[i]);
      Then(Then(done, b), FlushFrom(cfg, b.s, g, i + 1)) == Then(done, FlushFrom(cfg, s, g, i))
  {
    FlushFromUnfold(cfg, s, g, i);
    var b := FlushScan(cfg, s, g, s.lists[i]);
    ThenAssoc(done, b, FlushFrom(cfg, b.s, g, i + 1));
  }

  /** The `flush` scan of the snapshot `hs` of a bucket, whose whole
      outcome is `r0` and which began with the watches `w0`, has visited
      `hs[..k]`: the store is now `s`, the watches `w`, the outcome so far
      `done`, and `count` and `size` are the number and total size of the
      records gone. */
  ghost predicate FlushScannedTo(cfg: Config, g: u32, r0: Swept, w0: map<u32, WatchState>, hs: seq<Handle>, k: nat,
                                 done: Swept, count: nat, size: nat, s: MemState, w: map<u32, WatchState>) {
    && (forall id :: id in w0 ==> Parallel(w0[id]))
    && k <= |hs| && Ok(cfg, s) && Scannable(s, hs[k..])
    && Then(done, FlushScan(cfg, s, g, hs[k..])) == r0
    && w == ToldAll(w0, done.notes)
    && count == |done.gone| && size == Total(cfg.header, done.gone)
  }

  /** The scan of a bucket begins with nothing done. */
  lemma FlushScannedStart(cfg: Config, g: u32, s0: MemState, w0: map<u32, WatchState>, hs: seq<Handle>)
    requires Ok(cfg, s0) && Scannable(s0, hs) && (forall id :: id in w0 ==> Parallel(w0[id]))
    ensures FlushScannedTo(cfg, g, FlushScan(cfg, s0, g, hs), w0, hs, 0, Swept(s0, [], []), 0, 0, s0, w0)
  {
    assert hs[0..] == hs;
    ThenNothing(s0, FlushScan(cfg, s0, g, hs));
    assert ToldAll(w0, []) == w0;
    assert Total(cfg.header, []) == 0;
  }

  /** One more visit keeps `FlushScannedTo`. */
  lemma FlushScannedStep(cfg: Config, g: u32, r0: Swept, w0: map<u32, WatchState>, hs: seq<Handle>, k: nat,
                         done: Swept, count: nat, size: nat, s: MemState, w: map<u32, WatchState>,
                         c: nat, z: nat, s': MemState, w': map<u32, WatchState>)
    requires FlushScannedTo(cfg, g, r0, w0, hs, k, done, count, size, s, w) && k < |hs|
    requires var h := FlushHead(cfg, s, g, hs[k..]);
      s' == h.s && w' == ToldAll(w, h.notes) && c == |h.gone| && z == Total(cfg.header, h.gone)
    ensures FlushScannedTo(cfg, g, r0, w0, hs, k + 1, Then(done, FlushHead(cfg, s, g, hs[k..])), count + c, size + z, s', w')
  {
    FlushAdvance(cfg, s, g, hs, k, done);
    var h := FlushHead(cfg, s, g, hs[k..]);
    ToldAllAppend(w0, done.notes, h.notes);
    TotalAppend(cfg.header, done.gone, h.gone);
  }

  /** A scan that has visited the whole snapshot has reached its
      outcome. */
  lemma FlushScannedDone(cfg: Config, g: u32, r0: Swept, w0: map<u32, WatchState>, hs: seq<Handle>,
                         done: Swept, count: nat, size: nat, s: MemState, w: map<u32, WatchState>)
    requires FlushScannedTo(cfg, g, r0, w0, hs, |hs|, done, count, size, s, w)
    ensures s == r0.s && w == ToldAll(w0, r0.notes) && count == |r0.gone| && size == Total(cfg.header, r0.gone)
  {
    assert hs[|hs|..] == [];
    ThenEnd(done, s);
  }

  /** `flush` of group `g`, whose whole outcome is `r0` and which began
      with the watches `w0`, has gone through the buckets below `i`: the
      store is now `s`, the watches `w`, the outcome so far `done`, and
      `count` and `size` are the number and total size of the records gone. */
  ghost predicate FlushedBelow(cfg: Config, g: u32, r0: Swept, w0: map<u32, WatchState>, i: nat, done: Swept,
                               count: nat, size: nat, s: MemState, w: map<u32, WatchState>) {
    && (forall id :: id in w0 ==> Parallel(w0[id]))
    && i <= BUCKETS && Ok(cfg, s)
    && Then(done, FlushFrom(cfg, s, g, i)) == r0
    && w == ToldAll(w0, done.notes)
    && count == |done.gone| && size == Total(cfg.header, done.gone)
  }

  /** `flush` begins with nothing done. */
  lemma FlushedBelowStart(cfg: Config, g: u32, s0: MemState, w0: map<u32, WatchState>)
    requires Ok(cfg, s0) && (forall id :: id in w0 ==> Parallel(w0[id]))
    ensures FlushedBelow(cfg, g, FlushFrom(cfg, s0, g, 0), w0, 0, Swept(s0, [], []), 0, 0, s0, w0)
  {
    ThenNothing(s0, FlushFrom(cfg, s0, g, 0));
    assert ToldAll(w0, []) == w0;
    assert Total(cfg.header, []) == 0;
  }

  /** One more bucket of `flush` keeps `FlushedBelow`. */
  lemma FlushedBelowStep(cfg: Config, g: u32, r0: Swept, w0: map<u32, WatchState>, i: nat, done: Swept,
                         count: nat, size: nat, s: MemState, w: map<u32, WatchState>,
                         c: nat, z: nat, s': MemState, w': map<u32, WatchState>)
    requires FlushedBelow(cfg, g, r0, w0, i, done, count, size, s, w) && i < BUCKETS
    requires i < |s.lists| && Scannable(s, s.lists[i]) && Ok(cfg, s')
    requires var b := FlushScan(cfg, s, g, s.lists[i]);
      s' == b.s && w' == ToldAll(w, b.notes) && c == |b.gone| && z == Total(cfg.header, b.gone)
    ensures FlushedBelow(cfg, g, r0, w0, i + 1, Then(done, FlushScan(cfg, s, g, s.lists[i])), count + c, size + z, s', w')
  {
    FlushFromAdvance(cfg, s, g, i, done);
    var b := FlushScan(cfg, s, g, s.lists[i]);
    ToldAllAppend(w0, done.notes, b.notes);
    TotalAppend(cfg.header, done.gone, b.gone);
  }

  /** A `flush` that has gone through every bucket has reached its
      outcome. */
  lemma FlushedBelowDone(cfg: Config, g: u32, r0: Swept, w0: map<u32, WatchState>, done: Swept,
                         count: nat, size: nat, s: MemState, w: map<u32, WatchState>)
    requires FlushedBelow(cfg, g, r0, w0, BUCKETS, done, count, size, s, w)
    ensures s == r0.s && w == ToldAll(w0, r0.notes) && count == |r0.gone| && size == Total(cfg.header, r0.gone)
  {
    ThenEnd(done, s);
  }

  /** One bucket of `flush`. */
  lemma FlushFromUnfold(cfg: Config, s: MemState, g: u32, i: nat)
    requires Ok(cfg, s) && i < BUCKETS
    ensures i < |s.lists| && Scannable(s, s.lists[i])
    ensures var b := FlushScan(cfg, s, g, s.lists[i]);
      var rest := FlushFrom(cfg, b.s, g, i + 1);
      FlushFrom(cfg, s, g, i) == Swept(rest.s, b.notes + rest.notes, b.gone + rest.gone)
  {
    BucketScannable(cfg, s, i);
  }

  /** `flush` of group `g`: afterwards the cache holds exactly its former
      records of other groups; the records of `g` were unlinked bucket by
      bucket, front to back, and each was announced with FLUSHED. */
  lemma FlushEffect(cfg: Config, s: MemState, g: u32)
    requires Ok(cfg, s)
    ensures var r := FlushFrom(cfg, s, g, 0);
      && Ok(cfg, r.s)
      && Cached(r.s) == (map k | k in Cached(s) && k.group != g :: Cached(s)[k])
      && r.gone == PickedFrom(s, g, 0) && r.notes == Notes(r.gone, Flushed)
  {
    FlushFromGone(cfg, s, g, 0);
    FlushFromCached(cfg, s, g, 0);
    AboveZero(Cached(s), g);
  }

  // ---------------- expire_items ----------------

  /** Moving the first record of a snapshot to bucket `j` leaves the rest
      to scan. */
  lemma MoveFirst(cfg: Config, s: MemState, hs: seq<Handle>, j: nat)
    requires Ok(cfg, s) && Scannable(s, hs) && hs != [] && j < BUCKETS
    ensures hs[0] in s.items && s.items[hs[0]].expirationId < |s.lists| && j < |s.lists|
    ensures var r := MoveToBucket(s, hs[0], j); var it := s.items[hs[0]];
      && Ok(cfg, r) && Scannable(r, hs[1..]) && OthersKept(s, r, hs[0]) && r.index == s.index
      && Cached(r) == Cached(s)[KeyOf(it) := it.(expirationId := j)]
      && |r.lists| == |s.lists|
      && (forall e :: 0 <= e < |s.lists| && e != it.expirationId && e != j ==> r.lists[e] == s.lists[e])
  {
    var h := hs[0];
    ScannableTail(s, hs);
    MoveOk(cfg, s, h, j);
    ScannableAfter(s, MoveToBucket(s, h, j), h, hs[1..]);
  }

  /** The inner loop of `expire_items` (274-293) over a snapshot of bucket
      `i`: an expired record is unlinked with EXPIRED, and a survivor moves
      to the front of the bucket `Finer` picks for it, which may be `i`
      itself. */
  function ExpireScan(cfg: Config, s: MemState, i: nat, now: u32, hs: seq<Handle>): (r: Swept)
    requires Ok(cfg, s) && Scannable(s, hs) && i < SWEPT
    ensures Ok(cfg, r.s)
    decreases |hs|
  {
    if hs == [] then Swept(s, [], [])
    else
      ScannableTail(s, hs);
      var it := s.items[hs[0]];
      var rest := ExpireScan(cfg, ExpireStep(cfg, s, i, now, hs), i, now, hs[1..]);
      if it.expireTime <= now then
        Swept(rest.s, [Announce(it, Expired)] + rest.notes, [it] + rest.gone)
      else rest
  }

  /** One visit of the `expire_items` scan of bucket `i`. */
  lemma ExpireScanUnfold(cfg: Config, s: MemState, i: nat, now: u32, hs: seq<Handle>)
    requires Ok(cfg, s) && Scannable(s, hs) && hs != [] && i < SWEPT
    ensures hs[0] in s.items
    ensures var r := ExpireScan(cfg, ExpireStep(cfg, s, i, now, hs), i, now, hs[1..]); var it := s.items[hs[0]];
      ExpireScan(cfg, s, i, now, hs) == if it.expireTime <= now then Swept(r.s, [Announce(it, Expired)] + r.notes, [it] + r.gone) else r
  {
    ScannableTail(s, hs);
  }

  /** The visit of the `expire_items` scan to the head of `hs`. */
  function ExpireHead(cfg: Config, s: MemState, i: nat, now: u32, hs: seq<Handle>): (r: Swept)
    requires Ok(cfg, s) && Scannable(s, hs) && hs != [] && i < SWEPT
    ensures Ok(cfg, r.s) && Scannable(r.s, hs[1..])
  {
    var t := ExpireStep(cfg, s, i, now, hs);
    var it := s.items[hs[0]];
    if it.expireTime <= now then Swept(t, [Announce(it, Expired)], [it]) else Swept(t, [], [])
  }

  /** The visit spelled out: an expired record is unlinked, any other
      moved to the front of the bucket `Finer` picks. */
  lemma ExpireStepIs(cfg: Config, s: MemState, i: nat, now: u32, hs: seq<Handle>)
    requires Ok(cfg, s) && Scannable(s, hs) && hs != [] && i < SWEPT
    ensures hs[0] in s.items && s.items[hs[0]].expirationId < |s.lists|
    ensures s.items[hs[0]].expireTime <= now ==>
      Holds(cfg, s, hs[0]) && s.items[hs[0]].refCount >= 1
    ensures s.items[hs[0]].expireTime <= now ==>
      ExpireStep(cfg, s, i, now, hs) == Unlink(cfg, s, hs[0])
    ensures s.items[hs[0]].expireTime > now ==>
      Finer(i, s.items[hs[0]].expireTime - now) < |s.lists|
    ensures s.items[hs[0]].expireTime > now ==>
      ExpireStep(cfg, s, i, now, hs) == MoveToBucket(s, hs[0], Finer(i, s.items[hs[0]].expireTime - now))
  {
    ScannableTail(s, hs);
    if s.items[hs[0]].expireTime <= now {
      UnlinkFirst(cfg, s, hs);
    } else {
      MoveFirst(cfg, s, hs, Finer(i, s.items[hs[0]].expireTime - now));
    }
  }

  /** The visit to a record whose deadline has passed. */
  lemma ExpireHeadDrops(cfg: Config, s: MemState, i: nat, now: u32, hs: seq<Handle>)
    requires Ok(cfg, s) && Scannable(s, hs) && hs != [] && i < SWEPT
    requires hs[0] in s.items && s.items[hs[0]].expireTime <= now
    ensures Holds(cfg, s, hs[0]) && s.items[hs[0]].refCount >= 1
    ensures ExpireHead(cfg, s, i, now, hs) ==
      Swept(Unlink(cfg, s, hs[0]), [Announce(s.items[hs[0]], Expired)], [s.items[hs[0]]])
  {
    ExpireStepIs(cfg, s, i, now, hs);
  }

  /** The visit to a record still live. */
  lemma ExpireHeadMoves(cfg: Config, s: MemState, i: nat, now: u32, hs: seq<Handle>)
    requires Ok(cfg, s) && Scannable(s, hs) && hs != [] && i < SWEPT
    requires hs[0] in s.items && s.items[hs[0]].expireTime > now
    ensures s.items[hs[0]].expirationId < |s.lists| && Finer(i, s.items[hs[0]].expireTime - now) < |s.lists|
    ensures ExpireHead(cfg, s, i, now, hs) ==
      Swept(MoveToBucket(s, hs[0], Finer(i, s.items[hs[0]].expireTime - now)), [], [])
  {
    ExpireStepIs(cfg, s, i, now, hs);
  }

  /** A scan is its visit to the head, then the scan of the rest. */
  lemma ExpireHeadThen(cfg: Config, s: MemState, i: nat, now: u32, hs: seq<Handle>)
    requires Ok(cfg, s) && Scannable(s, hs) && hs != [] && i < SWEPT
    ensures var h := ExpireHead(cfg, s, i, now, hs);
      ExpireScan(cfg, s, i, now, hs) == Then(h, ExpireScan(cfg, h.s, i, now, hs[1..]))
  {
    var h := ExpireHead(cfg, s, i, now, hs);
    var r := ExpireScan(cfg, h.s, i, now, hs[1..]);
    ExpireScanUnfold(cfg, s, i, now, hs);
    ThenNothing(h.s, r);
  }

  /** The scan from position `k` of `hs` is its visit to `hs[k]`, then
      the scan from `k + 1`. */
  lemma ExpireAdvance(cfg: Config, s: MemState, i: nat, now: u32, hs: seq<Handle>, k: nat, done: Swept)
    requires Ok(cfg, s) && k < |hs| && Scannable(s, hs[k..]) && i < SWEPT
    ensures var h := ExpireHead(cfg, s, i, now, hs[k..]);
      && Scannable(h.s, hs[k + 1..])
      && Then(Then(done, h), ExpireScan(cfg, h.s, i, now, hs[k + 1..])) == Then(done, ExpireScan(cfg, s, i, now, hs[k..]))
  {
    assert hs[k..][1..] == hs[k + 1..];
    ExpireHeadThen(cfg, s, i, now, hs[k..]);
    var h := ExpireHead(cfg, s, i, now, hs[k..]);
    ThenAssoc(done, h, ExpireScan(cfg, h.s, i, now, hs[k + 1..]));
  }

  /** The `expire_items` scan of the snapshot `hs` of bucket `i`, whose
      whole outcome is `r0` and which began with the watches `w0`, has
      visited `hs[..k]`: the store is now `s`, the watches `w`, and the
      outcome so far `done`. */
  ghost predicate ExpireScannedTo(cfg: Config, i: nat, now: u32, r0: Swept, w0: map<u32, WatchState>, hs: seq<Handle>,
                                  k: nat, done: Swept, s: MemState, w: map<u32, WatchState>) {
    && (forall id :: id in w0 ==> Parallel(w0[id]))
    && i < SWEPT && k <= |hs| && Ok(cfg, s) && Scannable(s, hs[k..])
    && Then(done, ExpireScan(cfg, s, i, now, hs[k..])) == r0
    && w == ToldAll(w0, done.notes)
  }

  /** The scan of a bucket begins with nothing done. */
  lemma ExpireScannedStart(cfg: Config, i: nat, now: u32, s0: MemState, w0: map<u32, WatchState>, hs: seq<Handle>)
    requires Ok(cfg, s0) && Scannable(s0, hs) && i < SWEPT && (forall id :: id in w0 ==> Parallel(w0[id]))
    ensures ExpireScannedTo(cfg, i, now, ExpireScan(cfg, s0, i, now, hs), w0, hs, 0, Swept(s0, [], []), s0, w0)
  {
    assert hs[0..] == hs;
    ThenNothing(s0, ExpireScan(cfg, s0, i, now, hs));
    assert ToldAll(w0, []) == w0;
  }

  /** One more visit keeps `ExpireScannedTo`. */
  lemma ExpireScannedStep(cfg: Config, i: nat, now: u32, r0: Swept, w0: map<u32, WatchState>, hs: seq<Handle>, k: nat,
                          done: Swept, s: MemState, w: map<u32, WatchState>, s': MemState, w': map<u32, WatchState>)
    requires ExpireScannedTo(cfg, i, now, r0, w0, hs, k, done, s, w) && k < |hs|
    requires var h := ExpireHead(cfg, s, i, now, hs[k..]); s' == h.s && w' == ToldAll(w, h.notes)
    ensures ExpireScannedTo(cfg, i, now, r0, w0, hs, k + 1, Then(done, ExpireHead(cfg, s, i, now, hs[k..])), s', w')
  {
    ExpireAdvance(cfg, s, i, now, hs, k, done);
    ToldAllAppend(w0, done.notes, ExpireHead(cfg, s, i, now, hs[k..]).notes);
  }

  /** A scan that has visited the whole snapshot has reached its
      outcome. */
  lemma ExpireScannedDone(cfg: Config, i: nat, now: u32, r0: Swept, w0: map<u32, WatchState>, hs: seq<Handle>,
                          done: Swept, s: MemState, w: map<u32, WatchState>)
    requires ExpireScannedTo(cfg, i, now, r0, w0, hs, |hs|, done, s, w)
    ensures s == r0.s && w == ToldAll(w0, r0.notes)
  {
    assert hs[|hs|..] == [];
    ThenEnd(done, s);
  }

  /** The store after the sweep's visit to the first handle of `hs`. */
  function ExpireStep(cfg: Config, s: MemState, i: nat, now: u32, hs: seq<Handle>): (r: MemState)
    requires Ok(cfg, s) && Scannable(s, hs) && hs != [] && i < SWEPT
    ensures hs[0] in s.items
    ensures Ok(cfg, r) && Scannable(r, hs[1..]) && OthersKept(s, r, hs[0]) && |r.lists| == |s.lists|
    ensures forall j :: 0 <= j < |s.lists| && j > i && j != s.items[hs[0]].expirationId ==> r.lists[j] == s.lists[j]
  {
    var h := hs[0];
    ScannableTail(s, hs);
    var it := s.items[h];
    if it.expireTime <= now then
      UnlinkFirst(cfg, s, hs);
      Unlink(cfg, s, h)
    else
      var j := Finer(i, it.expireTime - now);
      MoveFirst(cfg, s, hs, j);
      MoveToBucket(s, h, j)
  }

  /** Bucket `i` is swept at `now`: one of the 33 finite buckets whose
      check time `expire_check_time_[i]` has come. */
  predicate Due(checks: seq<u32>, now: u32, i: nat) {
    i < SWEPT && i < |checks| && now >= checks[i]
  }

  /** `expire_items` (270-297) from bucket `i` on: each due bucket is
      scanned in turn. */
  function ExpireFrom(cfg: Config, s: MemState, checks: seq<u32>, now: u32, i: nat): (r: Swept)
    requires Ok(cfg, s) && i <= SWEPT
    ensures Ok(cfg, r.s)
    decreases SWEPT - i
  {
    if i == SWEPT then Swept(s, [], [])
    else
      BucketScannable(cfg, s, i);
      var b := if Due(checks, now, i) then ExpireScan(cfg, s, i, now, s.lists[i]) else Swept(s, [], []);
      var rest := ExpireFrom(cfg, b.s, checks, now, i + 1);
      Swept(rest.s, b.notes + rest.notes, b.gone + rest.gone)
  }

  /** The check times after `expire_items`: each due bucket's is moved
      to `now` plus the bucket's lower bound. */
  function Rechecked(checks: seq<u32>, now: u32): (r: seq<u32>)
    ensures |r| == |checks|
    ensures forall i :: 0 <= i < |checks| ==> r[i] == if Due(checks, now, i) then CheckDeadline(now, i) else checks[i]
  {
    seq(|checks|, i requires 0 <= i < |checks| => if Due(checks, now, i) then CheckDeadline(now, i) else checks[i])
  }

  /** The expired records among `hs`, in order. */
  ghost function Expiring(items: Arena, now: u32, hs: seq<Handle>): seq<Item> {
    if hs == [] then []
    else (if hs[0] in items && items[hs[0]].expireTime <= now then [items[hs[0]]] else []) + Expiring(items, now, hs[1..])
  }

  /** The expired records of the due buckets `i` and up, bucket by bucket. */
  ghost function ExpiringFrom(s: MemState, checks: seq<u32>, now: u32, i: nat): seq<Item>
    decreases |s.lists| - i
  {
    if i >= |s.lists| then []
    else (if Due(checks, now, i) then Expiring(s.items, now, s.lists[i]) else []) + ExpiringFrom(s, checks, now, i + 1)
  }

  lemma {:induction false} ExpiringSame(items: Arena, items': Arena, now: u32, hs: seq<Handle>)
    requires forall y :: y in hs ==> (y in items' <==> y in items) && (y in items ==> items'[y] == items[y])
    ensures Expiring(items', now, hs) == Expiring(items, now, hs)
    decreases |hs|
  {
    if hs != [] {
      assert hs[0] in hs;
      ExpiringSame(items, items', now, hs[1..]);
    }
  }

  lemma {:induction false} ExpiringFromSame(s: MemState, t: MemState, checks: seq<u32>, now: u32, i: nat)
    requires |t.lists| == |s.lists|
    requires forall j :: i <= j < |s.lists| ==> t.lists[j] == s.lists[j]
    requires forall j, y :: i <= j < |s.lists| && y in s.lists[j] ==>
      (y in t.items <==> y in s.items) && (y in s.items ==> t.items[y] == s.items[y])
    ensures ExpiringFrom(t, checks, now, i) == ExpiringFrom(s, checks, now, i)
    decreases |s.lists| - i
  {
    if i < |s.lists| {
      ExpiringSame(s.items, t.items, now, s.lists[i]);
      ExpiringFromSame(s, t, checks, now, i + 1);
    }
  }

  /** A bucket's sweep unlinks its expired records, in order, and
      announces each with EXPIRED. */
  lemma {:induction false} ExpireScanGone(cfg: Config, s: MemState, i: nat, now: u32, hs: seq<Handle>)
    requires Ok(cfg, s) && Scannable(s, hs) && i < SWEPT
    ensures var r := ExpireScan(cfg, s, i, now, hs);
      r.gone == Expiring(s.items, now, hs) && r.notes == Notes(r.gone, Expired)
    decreases |hs|
  {
    if hs != [] {
      ScannableTail(s, hs);
      var s1 := ExpireStep(cfg, s, i, now, hs);
      var rest := ExpireScan(cfg, s1, i, now, hs[1..]);
      assert rest.gone == Expiring(s.items, now, hs[1..]) && rest.notes == Notes(rest.gone, Expired) by {
        ExpireScanGone(cfg, s1, i, now, hs[1..]);
        ExpiringSame(s.items, s1.items, now, hs[1..]);
      }
    }
  }

  /** A bucket's sweep keeps the records it does not visit and the
      buckets coarser than its own. */
  lemma ExpireScanKeeps(cfg: Config, s: MemState, i: nat, now: u32, hs: seq<Handle>)
    requires Ok(cfg, s) && Scannable(s, hs) && i < SWEPT
    requires forall h :: h in hs ==> s.items[h].expirationId == i
    ensures var r := ExpireScan(cfg, s, i, now, hs);
      && (forall y :: y in s.items && y !in hs ==> y in r.s.items && r.s.items[y] == s.items[y])
      && |r.s.lists| == |s.lists|
      && (forall j :: i < j < |s.lists| ==> r.s.lists[j] == s.lists[j])
  {
    ExpireScanKeepsItems(cfg, s, i, now, hs);
    ExpireScanKeepsLists(cfg, s, i, now, hs);
  }

  lemma {:induction false} ExpireScanKeepsItems(cfg: Config, s: MemState, i: nat, now: u32, hs: seq<Handle>)
    requires Ok(cfg, s) && Scannable(s, hs) && i < SWEPT
    ensures var r := ExpireScan(cfg, s, i, now, hs);
      forall y :: y in s.items && y !in hs ==> y in r.s.items && r.s.items[y] == s.items[y]
    decreases |hs|
  {
    if hs != [] {
      var h := hs[0];
      ScannableTail(s, hs);
      var s1 := ExpireStep(cfg, s, i, now, hs);
      ExpireScanKeepsItems(cfg, s1, i, now, hs[1..]);
      var r := ExpireScan(cfg, s, i, now, hs);
      assert r.s == ExpireScan(cfg, s1, i, now, hs[1..]).s;
      forall y | y in s.items && y !in hs ensures y in r.s.items && r.s.items[y] == s.items[y] {
        assert y != h && y !in hs[1..];
        assert y in s1.items && s1.items[y] == s.items[y];
      }
    }
  }

  lemma {:induction false} ExpireScanKeepsLists(cfg: Config, s: MemState, i: nat, now: u32, hs: seq<Handle>)
    requires Ok(cfg, s) && Scannable(s, hs) && i < SWEPT
    requires forall h :: h in hs ==> s.items[h].expirationId == i
    ensures var r := ExpireScan(cfg, s, i, now, hs);
      && |r.s.lists| == |s.lists|
      && (forall j :: i < j < |s.lists| ==> r.s.lists[j] == s.lists[j])
    decreases |hs|
  {
    if hs != [] {
      ScannableTail(s, hs);
      var s1 := ExpireStep(cfg, s, i, now, hs);
      forall y | y in hs[1..] ensures s1.items[y].expirationId == i {
        assert y in hs && y != hs[0];
      }
      ExpireScanKeepsLists(cfg, s1, i, now, hs[1..]);
      assert ExpireScan(cfg, s, i, now, hs).s == ExpireScan(cfg, s1, i, now, hs[1..]).s;
    }
  }

  /** The record `it` of bucket `e`, alive at `now`, under the bucket
      `Finer` picks for its remaining lifetime. */
  function Refiled(it: Item, e: nat, now: u32): Item
    requires e <= 32 && it.expireTime > now
  {
    it.(expirationId := Finer(e, it.expireTime - now))
  }

  /** What the sweep of the snapshot `hs` of bucket `i` leaves of the
      cache: the expired keys among those visited are gone and the other
      visited records name the bucket `Finer` picked. */
  ghost function Aged(c: map<Key, Item>, index: Index, now: u32, i: nat, hs: seq<Handle>): map<Key, Item>
    requires i < SWEPT
  {
    map k | k in c && !(k in index && index[k] in hs && c[k].expireTime <= now) ::
      if k in index && index[k] in hs then Refiled(c[k], i, now) else c[k]
  }

  lemma AgedDrop(s: MemState, s1: MemState, i: nat, now: u32, hs: seq<Handle>)
    requires IndexOk(s.items, s.index) && Scannable(s, hs) && hs != [] && i < SWEPT
    requires hs[0] in s.items && s.items[hs[0]].expireTime <= now
    requires IndexOk(s1.items, s1.index)
    requires s1.index == s.index - {KeyOf(s.items[hs[0]])}
    requires Cached(s1) == Cached(s) - {KeyOf(s.items[hs[0]])}
    ensures Aged(Cached(s1), s1.index, now, i, hs[1..]) == Aged(Cached(s), s.index, now, i, hs)
  {
    ScannableTail(s, hs);
    var c, c1 := Cached(s), Cached(s1);
    var a1, a := Aged(c1, s1.index, now, i, hs[1..]), Aged(c, s.index, now, i, hs);
    forall k | k in c1
      ensures s1.index[k] in hs[1..] <==> s.index[k] in hs
    {
      assert KeyOf(s.items[s.index[k]]) == k;
    }
    forall k ensures k in a1 <==> k in a {
    }
    forall k | k in a1 ensures a1[k] == a[k] {
    }
    assert a1 == a;
  }

  lemma AgedMove(s: MemState, s1: MemState, i: nat, now: u32, hs: seq<Handle>)
    requires IndexOk(s.items, s.index) && Scannable(s, hs) && hs != [] && i < SWEPT
    requires hs[0] in s.items && s.items[hs[0]].expireTime > now
    requires IndexOk(s1.items, s1.index) && s1.index == s.index
    requires var it := s.items[hs[0]];
      Cached(s1) == Cached(s)[KeyOf(it) := Refiled(it, i, now)]
    ensures Aged(Cached(s1), s1.index, now, i, hs[1..]) == Aged(Cached(s), s.index, now, i, hs)
  {
    var h := hs[0];
    ScannableTail(s, hs);
    var c := Cached(s);
    var kh := KeyOf(s.items[h]);
    forall k | k in c
      ensures k in s.index && (s.index[k] in hs[1..] <==> s.index[k] in hs && k != kh)
    {
      assert KeyOf(s.items[s.index[k]]) == k;
    }
    assert kh in c && s.index[kh] == h && c[kh] == s.items[h];
    AgedRetarget(c, Cached(s1), s.index, i, now, hs, kh);
  }

  /** `AgedMove` on the maps alone. */
  lemma AgedRetarget(c: map<Key, Item>, c1: map<Key, Item>, index: Index, i: nat, now: u32, hs: seq<Handle>, kh: Key)
    requires i < SWEPT && hs != []
    requires kh in c && kh in index && index[kh] == hs[0] && c[kh].expireTime > now
    requires forall k :: k in c ==> k in index && (index[k] in hs[1..] <==> index[k] in hs && k != kh)
    requires c1 == c[kh := Refiled(c[kh], i, now)]
    ensures Aged(c1, index, now, i, hs[1..]) == Aged(c, index, now, i, hs)
  {
    var a1, a := Aged(c1, index, now, i, hs[1..]), Aged(c, index, now, i, hs);
    forall k ensures k in a1 <==> k in a {
    }
    forall k | k in a1 ensures a1[k] == a[k] {
      if k == kh {
        assert a[k] == Refiled(c[k], i, now);
      } else {
        assert c1[k] == c[k];
      }
    }
    assert a1 == a;
  }

  /** A bucket's sweep drops the visited expired keys and re-buckets the
      other visited records. */
  lemma {:induction false} ExpireScanCached(cfg: Config, s: MemState, i: nat, now: u32, hs: seq<Handle>)
    requires Ok(cfg, s) && Scannable(s, hs) && i < SWEPT
    ensures Cached(ExpireScan(cfg, s, i, now, hs).s) == Aged(Cached(s), s.index, now, i, hs)
    decreases |hs|
  {
    if hs == [] {
      assert Aged(Cached(s), s.index, now, i, hs) == Cached(s);
    } else {
      ScannableTail(s, hs);
      var s1 := ExpireStep(cfg, s, i, now, hs);
      assert ExpireScan(cfg, s, i, now, hs).s == ExpireScan(cfg, s1, i, now, hs[1..]).s;
      ExpireScanCached(cfg, s1, i, now, hs[1..]);
      AgedVisit(cfg, s, i, now, hs);
    }
  }

  /** The visit to the first handle does its share of `Aged`. */
  lemma AgedVisit(cfg: Config, s: MemState, i: nat, now: u32, hs: seq<Handle>)
    requires Ok(cfg, s) && Scannable(s, hs) && hs != [] && i < SWEPT
    ensures var s1 := ExpireStep(cfg, s, i, now, hs);
      Aged(Cached(s1), s1.index, now, i, hs[1..]) == Aged(Cached(s), s.index, now, i, hs)
  {
    ScannableTail(s, hs);
    if s.items[hs[0]].expireTime <= now {
      AgedVisitDrop(cfg, s, i, now, hs);
    } else {
      AgedVisitMove(cfg, s, i, now, hs);
    }
  }

  lemma AgedVisitDrop(cfg: Config, s: MemState, i: nat, now: u32, hs: seq<Handle>)
    requires Ok(cfg, s) && Scannable(s, hs) && hs != [] && i < SWEPT
    requires hs[0] in s.items && s.items[hs[0]].expireTime <= now
    ensures var s1 := ExpireStep(cfg, s, i, now, hs);
      Aged(Cached(s1), s1.index, now, i, hs[1..]) == Aged(Cached(s), s.index, now, i, hs)
  {
    var s1 := ExpireStep(cfg, s, i, now, hs);
    UnlinkFirst(cfg, s, hs);
    assert s1 == Unlink(cfg, s, hs[0]);
    AgedDrop(s, s1, i, now, hs);
  }

  lemma AgedVisitMove(cfg: Config, s: MemState, i: nat, now: u32, hs: seq<Handle>)
    requires Ok(cfg, s) && Scannable(s, hs) && hs != [] && i < SWEPT
    requires hs[0] in s.items && s.items[hs[0]].expireTime > now
    ensures var s1 := ExpireStep(cfg, s, i, now, hs);
      Aged(Cached(s1), s1.index, now, i, hs[1..]) == Aged(Cached(s), s.index, now, i, hs)
  {
    var s1 := ExpireStep(cfg, s, i, now, hs);
    var it := s.items[hs[0]];
    var j := Finer(i, it.expireTime - now);
    assert IndexOk(s1.items, s1.index) && s1.index == s.index
        && Cached(s1) == Cached(s)[KeyOf(it) := it.(expirationId := j)] by {
      MoveFirst(cfg, s, hs, j);
      assert s1 == MoveToBucket(s, hs[0], j);
    }
    AgedMove(s, s1, i, now, hs);
  }

  /** Sweeping buckets `i` and up unlinks, bucket by bucket, the expired
      records of the due buckets and announces each with EXPIRED. */
  lemma {:induction false} ExpireFromGone(cfg: Config, s: MemState, checks: seq<u32>, now: u32, i: nat)
    requires Ok(cfg, s) && i <= SWEPT
    ensures var r := ExpireFrom(cfg, s, checks, now, i);
      r.gone == ExpiringFrom(s, checks, now, i) && r.notes == Notes(r.gone, Expired)
    decreases SWEPT - i, 1
  {
    if i == SWEPT {
      assert |s.lists| == BUCKETS;
      assert ExpiringFrom(s, checks, now, BUCKETS) == [];
    } else if Due(checks, now, i) {
      ExpireDueGone(cfg, s, checks, now, i);
    } else {
      ExpireFromGone(cfg, s, checks, now, i + 1);
      ExpireSkips(cfg, s, checks, now, i);
    }
  }

  /** The sweep of a due bucket `i` does its share of `ExpiringFrom`. */
  lemma {:induction false} ExpireDueGone(cfg: Config, s: MemState, checks: seq<u32>, now: u32, i: nat)
    requires Ok(cfg, s) && Due(checks, now, i)
    ensures var r := ExpireFrom(cfg, s, checks, now, i);
      r.gone == ExpiringFrom(s, checks, now, i) && r.notes == Notes(r.gone, Expired)
    decreases SWEPT - i, 0
  {
    BucketScannable(cfg, s, i);
    var b := ExpireScan(cfg, s, i, now, s.lists[i]);
    var rest := ExpireFrom(cfg, b.s, checks, now, i + 1);
    var r := ExpireFrom(cfg, s, checks, now, i);
    assert r.gone == b.gone + rest.gone && r.notes == b.notes + rest.notes
      && ExpiringFrom(s, checks, now, i) == Expiring(s.items, now, s.lists[i]) + ExpiringFrom(s, checks, now, i + 1) by {
      ExpireDueUnfold(cfg, s, checks, now, i);
    }
    assert b.gone == Expiring(s.items, now, s.lists[i]) && b.notes == Notes(b.gone, Expired) by {
      ExpireScanGone(cfg, s, i, now, s.lists[i]);
    }
    assert rest.gone == ExpiringFrom(s, checks, now, i + 1) && rest.notes == Notes(rest.gone, Expired) by {
      ExpireFromGone(cfg, b.s, checks, now, i + 1);
      ExpireLaterSame(cfg, s, checks, now, i);
    }
    NotesAppend(b.gone, rest.gone, Expired);
  }

  /** One step of `ExpireFrom` at a due bucket, and of `ExpiringFrom`. */
  lemma ExpireDueUnfold(cfg: Config, s: MemState, checks: seq<u32>, now: u32, i: nat)
    requires Ok(cfg, s) && Due(checks, now, i)
    ensures i < |s.lists| && Scannable(s, s.lists[i])
    ensures var b := ExpireScan(cfg, s, i, now, s.lists[i]);
      var rest := ExpireFrom(cfg, b.s, checks, now, i + 1);
      ExpireFrom(cfg, s, checks, now, i) == Swept(rest.s, b.notes + rest.notes, b.gone + rest.gone)
    ensures ExpiringFrom(s, checks, now, i) == Expiring(s.items, now, s.lists[i]) + ExpiringFrom(s, checks, now, i + 1)
  {
    BucketScannable(cfg, s, i);
  }

  /** The sweep of bucket `i` leaves the later buckets' expired records as
      they were. */
  lemma ExpireLaterSame(cfg: Config, s: MemState, checks: seq<u32>, now: u32, i: nat)
    requires Ok(cfg, s) && i < SWEPT
    ensures i < |s.lists| && Scannable(s, s.lists[i])
    ensures ExpiringFrom(ExpireScan(cfg, s, i, now, s.lists[i]).s, checks, now, i + 1) == ExpiringFrom(s, checks, now, i + 1)
  {
    BucketScannable(cfg, s, i);
    ExpireScanLater(cfg, s, checks, now, i, s.lists[i]);
  }

  /** `ExpireLaterSame` for a snapshot of records of bucket `i`. */
  lemma {:induction false} ExpireScanLater(cfg: Config, s: MemState, checks: seq<u32>, now: u32, i: nat, hs: seq<Handle>)
    requires Ok(cfg, s) && Scannable(s, hs) && i < SWEPT
    requires forall h :: h in hs ==> s.items[h].expirationId == i
    ensures ExpiringFrom(ExpireScan(cfg, s, i, now, hs).s, checks, now, i + 1) == ExpiringFrom(s, checks, now, i + 1)
    decreases |hs|
  {
    if hs != [] {
      ScannableTail(s, hs);
      var s1 := ExpireStep(cfg, s, i, now, hs);
      forall y | y in hs[1..] ensures s1.items[y].expirationId == i {
        assert y in hs && y != hs[0];
      }
      ExpireScanLater(cfg, s1, checks, now, i, hs[1..]);
      ExpireStepLater(cfg, s, checks, now, i, hs);
      assert ExpireScan(cfg, s, i, now, hs).s == ExpireScan(cfg, s1, i, now, hs[1..]).s;
    }
  }

  /** The visit to the first record of bucket `i` leaves the later
      buckets' expired records as they were. */
  lemma ExpireStepLater(cfg: Config, s: MemState, checks: seq<u32>, now: u32, i: nat, hs: seq<Handle>)
    requires Ok(cfg, s) && Scannable(s, hs) && hs != [] && i < SWEPT
    requires hs[0] in s.items && s.items[hs[0]].expirationId == i
    ensures ExpiringFrom(ExpireStep(cfg, s, i, now, hs), checks, now, i + 1) == ExpiringFrom(s, checks, now, i + 1)
  {
    var t := ExpireStep(cfg, s, i, now, hs);
    forall j, y | i + 1 <= j < |s.lists| && y in s.lists[j]
      ensures (y in t.items <==> y in s.items) && (y in s.items ==> t.items[y] == s.items[y])
    {
      BucketScannable(cfg, s, j);
    }
    ExpiringFromSame(s, t, checks, now, i + 1);
  }

  /** Sweeping buckets `i` and up keeps the never-expiring bucket. */
  lemma {:induction false} ExpireFromNever(cfg: Config, s: MemState, checks: seq<u32>, now: u32, i: nat)
    requires Ok(cfg, s) && i <= SWEPT
    ensures var r := ExpireFrom(cfg, s, checks, now, i);
      |r.s.lists| == |s.lists| == BUCKETS && r.s.lists[NEVER] == s.lists[NEVER]
    decreases SWEPT - i
  {
    if i < SWEPT {
      BucketScannable(cfg, s, i);
      var b := if Due(checks, now, i) then ExpireScan(cfg, s, i, now, s.lists[i]) else Swept(s, [], []);
      if Due(checks, now, i) {
        ExpireScanKeeps(cfg, s, i, now, s.lists[i]);
      }
      ExpireFromNever(cfg, b.s, checks, now, i + 1);
    }
  }

  /** What sweeping the due buckets `i` and up leaves of the cache `c`:
      the expired keys of those buckets are gone and their other records
      name the bucket `Finer` picked. */
  ghost function AgedFrom(c: map<Key, Item>, checks: seq<u32>, now: u32, i: nat): map<Key, Item> {
    map k | k in c && !(Due(checks, now, c[k].expirationId) && c[k].expirationId >= i && c[k].expireTime <= now) ::
      if Due(checks, now, c[k].expirationId) && c[k].expirationId >= i
      then Refiled(c[k], c[k].expirationId, now)
      else c[k]
  }

  /** The cache after the sweep of bucket `i`, by the records' own
      bucket. */
  ghost function AgedAt(c: map<Key, Item>, now: u32, i: nat): map<Key, Item>
    requires i < SWEPT
  {
    map k | k in c && !(c[k].expirationId == i && c[k].expireTime <= now) ::
      if c[k].expirationId == i then Refiled(c[k], i, now) else c[k]
  }

  /** The keys a bucket's snapshot visits are the keys whose records name
      that bucket. */
  lemma AgedBucket(cfg: Config, s: MemState, now: u32, i: nat)
    requires Ok(cfg, s) && i < SWEPT
    ensures i < |s.lists|
    ensures Aged(Cached(s), s.index, now, i, s.lists[i]) == AgedAt(Cached(s), now, i)
  {
    forall k | k in Cached(s)
      ensures s.index[k] in s.lists[i] <==> Cached(s)[k].expirationId == i
    {
      assert IsLinked(s.items, s.index, s.index[k]);
    }
  }

  /** A survivor of bucket `i` moves to a bucket no coarser than `i`, so
      the later buckets' sweeps leave it alone. */
  lemma AgedStep(c: map<Key, Item>, checks: seq<u32>, now: u32, i: nat)
    requires Due(checks, now, i)
    ensures AgedFrom(AgedAt(c, now, i), checks, now, i + 1) == AgedFrom(c, checks, now, i)
  {
    var m := AgedAt(c, now, i);
    var l, r := AgedFrom(m, checks, now, i + 1), AgedFrom(c, checks, now, i);
    forall k | k in m && c[k].expirationId == i
      ensures m[k].expirationId <= i && m[k].expireTime > now
    {
    }
    forall k ensures k in l <==> k in r {
    }
    forall k | k in l ensures l[k] == r[k] {
      if c[k].expirationId == i {
        assert l[k] == m[k];
      } else {
        assert m[k] == c[k];
      }
    }
    assert l == r;
  }

  lemma AgedIdle(c: map<Key, Item>, checks: seq<u32>, now: u32, i: nat)
    requires !Due(checks, now, i)
    ensures AgedFrom(c, checks, now, i + 1) == AgedFrom(c, checks, now, i)
  {
  }

  lemma AgedNone(c: map<Key, Item>, checks: seq<u32>, now: u32)
    ensures AgedFrom(c, checks, now, SWEPT) == c
  {
  }

  /** A bucket that is not due is skipped. */
  lemma ExpireSkips(cfg: Config, s: MemState, checks: seq<u32>, now: u32, i: nat)
    requires Ok(cfg, s) && i < SWEPT && !Due(checks, now, i)
    ensures ExpireFrom(cfg, s, checks, now, i) == ExpireFrom(cfg, s, checks, now, i + 1)
  {
    var rest := ExpireFrom(cfg, s, checks, now, i + 1);
    assert [] + rest.notes == rest.notes && [] + rest.gone == rest.gone;
  }

  /** `expire_items` from bucket `i`: the scan of bucket `i` when it is
      due, then `expire_items` from bucket `i + 1`. */
  lemma ExpireFromAdvance(cfg: Config, s: MemState, checks: seq<u32>, now: u32, i: nat, done: Swept)
    requires Ok(cfg, s) && i < SWEPT
    ensures i < |s.lists| && Scannable(s, s.lists[i])
    ensures Due(checks, now, i) ==>
      var b := ExpireScan(cfg, s, i, now, s.lists[i]);
      Then(Then(done, b), ExpireFrom(cfg, b.s, checks, now, i + 1)) == Then(done, ExpireFrom(cfg, s, checks, now, i))
    ensures !Due(checks, now, i) ==>
      ExpireFrom(cfg, s, checks, now, i + 1) == ExpireFrom(cfg, s, checks, now, i)
  {
    BucketScannable(cfg, s, i);
    if Due(checks, now, i) {
      ExpireDueUnfold(cfg, s, checks, now, i);
      var b := ExpireScan(cfg, s, i, now, s.lists[i]);
      ThenAssoc(done, b, ExpireFrom(cfg, b.s, checks, now, i + 1));
    } else {
      ExpireSkips(cfg, s, checks, now, i);
    }
  }

  /** `expire_items` at `now`, with the outcome `r0` as a whole, begun with the
      watches `w0` and the check times `checks`, has gone through the buckets below
      `i`: the store is now `s`, the watches `w` and the check times `ect`,
      with the outcome `done` so far. */
  ghost predicate ExpiredBelow(cfg: Config, now: u32, r0: Swept, w0: map<u32, WatchState>, checks: seq<u32>, i: nat,
                               done: Swept, s: MemState, w: map<u32, WatchState>, ect: seq<u32>) {
    && (forall id :: id in w0 ==> Parallel(w0[id])) && |checks| == SWEPT
    && i <= SWEPT && Ok(cfg, s) && |ect| == SWEPT
    && (forall j :: 0 <= j < SWEPT ==> ect[j] == if j < i then Rechecked(checks, now)[j] else checks[j])
    && Then(done, ExpireFrom(cfg, s, checks, now, i)) == r0
    && w == ToldAll(w0, done.notes)
  }

  /** Before the first bucket. */
  lemma ExpiredBelowStart(cfg: Config, now: u32, s0: MemState, w0: map<u32, WatchState>, checks: seq<u32>)
    requires Ok(cfg, s0) && (forall id :: id in w0 ==> Parallel(w0[id])) && |checks| == SWEPT
    ensures ExpiredBelow(cfg, now, ExpireFrom(cfg, s0, checks, now, 0), w0, checks, 0, Swept(s0, [], []), s0, w0, checks)
  {
    ThenNothing(s0, ExpireFrom(cfg, s0, checks, now, 0));
    assert ToldAll(w0, []) == w0;
  }

  /** After the last bucket: the store and the watches are those of
      `ExpireFrom`, and every due bucket has its new check time. */
  lemma ExpiredBelowDone(cfg: Config, now: u32, r0: Swept, w0: map<u32, WatchState>, checks: seq<u32>,
                         done: Swept, s: MemState, w: map<u32, WatchState>, ect: seq<u32>)
    requires ExpiredBelow(cfg, now, r0, w0, checks, SWEPT, done, s, w, ect)
    ensures s == r0.s && w == ToldAll(w0, r0.notes) && ect == Rechecked(checks, now)
  {
    ThenEnd(done, s);
  }

  /** A bucket whose check time has not come is passed over. */
  lemma ExpiredBelowIdle(cfg: Config, now: u32, r0: Swept, w0: map<u32, WatchState>, checks: seq<u32>, i: nat,
                         done: Swept, s: MemState, w: map<u32, WatchState>, ect: seq<u32>)
    requires ExpiredBelow(cfg, now, r0, w0, checks, i, done, s, w, ect) && i < SWEPT && now < ect[i]
    ensures ExpiredBelow(cfg, now, r0, w0, checks, i + 1, done, s, w, ect)
  {
    ExpireFromAdvance(cfg, s, checks, now, i, done);
  }

  /** A bucket whose check time has come gets a new one and is scanned. */
  lemma ExpiredBelowDue(cfg: Config, now: u32, r0: Swept, w0: map<u32, WatchState>, checks: seq<u32>, i: nat,
                        done: Swept, s: MemState, w: map<u32, WatchState>, ect: seq<u32>, s': MemState, w': map<u32, WatchState>)
    requires ExpiredBelow(cfg, now, r0, w0, checks, i, done, s, w, ect) && i < SWEPT && now >= ect[i]
    requires i < |s.lists| && Scannable(s, s.lists[i]) && Ok(cfg, s')
    requires var b := ExpireScan(cfg, s, i, now, s.lists[i]); s' == b.s && w' == ToldAll(w, b.notes)
    ensures ExpiredBelow(cfg, now, r0, w0, checks, i + 1, Then(done, ExpireScan(cfg, s, i, now, s.lists[i])), s', w',
                         ect[i := CheckDeadline(now, i)])
  {
    ExpireFromAdvance(cfg, s, checks, now, i, done);
    ToldAllAppend(w0, done.notes, ExpireScan(cfg, s, i, now, s.lists[i]).notes);
  }

  /** A bucket that is not due does no share of `AgedFrom`. */
  lemma {:induction false} ExpireIdleCached(cfg: Config, s: MemState, checks: seq<u32>, now: u32, i: nat)
    requires Ok(cfg, s) && i < SWEPT && !Due(checks, now, i)
    ensures Cached(ExpireFrom(cfg, s, checks, now, i).s) == AgedFrom(Cached(s), checks, now, i)
    decreases SWEPT - i, 0
  {
    ExpireFromCached(cfg, s, checks, now, i + 1);
    ExpireSkips(cfg, s, checks, now, i);
    AgedIdle(Cached(s), checks, now, i);
  }

  /** The sweep of a due bucket `i` does its share of `AgedFrom`. */
  lemma {:induction false} ExpireDueCached(cfg: Config, s: MemState, checks: seq<u32>, now: u32, i: nat)
    requires Ok(cfg, s) && Due(checks, now, i)
    ensures Cached(ExpireFrom(cfg, s, checks, now, i).s) == AgedFrom(Cached(s), checks, now, i)
    decreases SWEPT - i, 0
  {
    BucketScannable(cfg, s, i);
    var b := ExpireScan(cfg, s, i, now, s.lists[i]);
    ExpireFromCached(cfg, b.s, checks, now, i + 1);
    assert ExpireFrom(cfg, s, checks, now, i).s == ExpireFrom(cfg, b.s, checks, now, i + 1).s by {
      ExpireDueUnfold(cfg, s, checks, now, i);
    }
    AgedDue(cfg, s, checks, now, i);
  }

  lemma AgedDue(cfg: Config, s: MemState, checks: seq<u32>, now: u32, i: nat)
    requires Ok(cfg, s) && Due(checks, now, i)
    ensures i < |s.lists| && Scannable(s, s.lists[i])
    ensures AgedFrom(Cached(ExpireScan(cfg, s, i, now, s.lists[i]).s), checks, now, i + 1)
         == AgedFrom(Cached(s), checks, now, i)
  {
    BucketScannable(cfg, s, i);
    ExpireScanCached(cfg, s, i, now, s.lists[i]);
    AgedBucket(cfg, s, now, i);
    AgedStep(Cached(s), checks, now, i);
  }

  /** Sweeping buckets `i` and up leaves the cache `AgedFrom` describes. */
  lemma {:induction false} ExpireFromCached(cfg: Config, s: MemState, checks: seq<u32>, now: u32, i: nat)
    requires Ok(cfg, s) && i <= SWEPT
    ensures Cached(ExpireFrom(cfg, s, checks, now, i).s) == AgedFrom(Cached(s), checks, now, i)
    decreases SWEPT - i, 1
  {
    if i < SWEPT {
      if Due(checks, now, i) {
        ExpireDueCached(cfg, s, checks, now, i);
      } else {
        ExpireIdleCached(cfg, s, checks, now, i);
      }
    } else {
      AgedNone(Cached(s), checks, now);
    }
  }

  /** `expire_items` at `now` with check times `checks`: the expired
      records of the due buckets were unlinked, bucket by bucket, front to
      back, each announced with EXPIRED; every other record of a due
      bucket now names the bucket `Finer` picks for its remaining
      lifetime; the records of the other buckets, the never-expiring one
      among them, are as they were. */
  lemma ExpireEffect(cfg: Config, s: MemState, checks: seq<u32>, now: u32)
    requires Ok(cfg, s)
    ensures var r := ExpireFrom(cfg, s, checks, now, 0); var c := Cached(s);
      && Ok(cfg, r.s)
      && Cached(r.s) == (map k | k in c && !(Due(checks, now, c[k].expirationId) && c[k].expireTime <= now) ::
           if Due(checks, now, c[k].expirationId)
           then Refiled(c[k], c[k].expirationId, now)
           else c[k])
      && r.gone == ExpiringFrom(s, checks, now, 0) && r.notes == Notes(r.gone, Expired)
      && r.s.lists[NEVER] == s.lists[NEVER]
  {
    ExpireFromCached(cfg, s, checks, now, 0);
    AgedZero(Cached(s), checks, now);
    ExpireFromGone(cfg, s, checks, now, 0);
    ExpireFromNever(cfg, s, checks, now, 0);
  }

  lemma AgedZero(c: map<Key, Item>, checks: seq<u32>, now: u32)
    ensures AgedFrom(c, checks, now, 0)
         == map k | k in c && !(Due(checks, now, c[k].expirationId) && c[k].expireTime <= now) ::
              if Due(checks, now, c[k].expirationId)
              then Refiled(c[k], c[k].expirationId, now)
              else c[k]
  {
  }

  /** What `expire_items` promises, record by record: no record of a due
      bucket that has expired is left, and none left in a due bucket has
      expired; each survivor of a due bucket keeps its contents and moves
      to a bucket no coarser than before whose lower bound its remaining
      lifetime reaches; the records of the other buckets stay. */
  lemma ExpireSorts(cfg: Config, s: MemState, checks: seq<u32>, now: u32)
    requires Ok(cfg, s)
    ensures var c, c' := Cached(s), Cached(ExpireFrom(cfg, s, checks, now, 0).s);
      && (forall k :: k in c' ==> k in c)
      && (forall k :: k in c && Due(checks, now, c[k].expirationId) && c[k].expireTime <= now ==> k !in c')
      && (forall k :: k in c' ==> (Due(checks, now, c'[k].expirationId) ==> c'[k].expireTime > now))
      && (forall k :: k in c && Due(checks, now, c[k].expirationId) && c[k].expireTime > now ==>
            && k in c' && c'[k] == c[k].(expirationId := c'[k].expirationId)
            && c'[k].expirationId <= c[k].expirationId
            && ExpirationTime(c'[k].expirationId) <= c[k].expireTime - now)
      && (forall k :: k in c && !Due(checks, now, c[k].expirationId) ==> k in c' && c'[k] == c[k])
  {
    ExpireEffect(cfg, s, checks, now);
    AgedZero(Cached(s), checks, now);
    AgedSorts(Cached(s), checks, now);
  }

  /** `ExpireSorts` for the map `AgedFrom` builds from bucket 0. */
  lemma AgedSorts(c: map<Key, Item>, checks: seq<u32>, now: u32)
    ensures var c' := AgedFrom(c, checks, now, 0);
      && (forall k :: k in c' ==> k in c)
      && (forall k :: k in c && Due(checks, now, c[k].expirationId) && c[k].expireTime <= now ==> k !in c')
      && (forall k :: k in c' ==> (Due(checks, now, c'[k].expirationId) ==> c'[k].expireTime > now))
      && (forall k :: k in c && Due(checks, now, c[k].expirationId) && c[k].expireTime > now ==>
            && k in c' && c'[k] == c[k].(expirationId := c'[k].expirationId)
            && c'[k].expirationId <= c[k].expirationId
            && ExpirationTime(c'[k].expirationId) <= c[k].expireTime - now)
      && (forall k :: k in c && !Due(checks, now, c[k].expirationId) ==> k in c' && c'[k] == c[k])
  {
    AgedZero(c, checks, now);
    var c' := AgedFrom(c, checks, now, 0);
    forall k | k in c && Due(checks, now, c[k].expirationId) && c[k].expireTime > now
      ensures && k in c' && c'[k] == c[k].(expirationId := c'[k].expirationId)
              && c'[k].expirationId <= c[k].expirationId
              && ExpirationTime(c'[k].expirationId) <= c[k].expireTime - now
    {
      assert c'[k] == Refiled(c[k], c[k].expirationId, now);
    }
  }
}
