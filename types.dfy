/** Value types shared by the whole cache manager model. */
module CacheTypes {

  const U32: nat := 0x1_0000_0000
  const U64: nat := 0x1_0000_0000_0000_0000

  /** The source's fixed-width unsigned integers. */
  type u32 = x: nat | x < U32
  type u64 = x: nat | x < U64
  type byte = x: nat | x < 256

  /** An item buffer in the manager's arena (stands for a `Cache_Item*`). */
  type Handle = nat

  /** A notification sink (stands for a `Cache_Watch_Sink` connection). */
  type SinkId = nat

  datatype Option<T> = None | Some(value: T)

  /** The `xixi_reason` codes the manager returns. */
  datatype Reason =
    | Success
    | NotFound
    | Exists
    | Mismatch
    | WatchNotFound
    | OutOfMemory
    | TooLarge

  /** The `watch_notify_type` values passed to watches. */
  datatype NotifyType = Expired | Deleted | DataUpdated | BaseInfoUpdated | Flushed

  /** The composite key of the hash index: group id and key bytes. */
  datatype Key = Key(group: u32, bytes: seq<byte>)

  /** One `Cache_Item` record. `watchers` is the watch-id set of its
      `watch_item`; an empty set stands for a NULL `watch_item`. */
  datatype Item = Item(
    groupId: u32,
    key: seq<byte>,
    data: seq<byte>,
    ext: seq<byte>,
    flags: u32,
    expireTime: u32,
    expirationId: nat,
    classId: nat,
    refCount: nat,
    cacheId: u64,
    lastUpdateTime: u32,
    watchers: set<u32>)

  function KeyOf(it: Item): Key {
    Key(it.groupId, it.key)
  }

  /** `CALC_ITEM_SIZE`: header plus key, data and extension bytes. */
  function ItemSize(header: nat, keyLen: nat, dataLen: nat, extLen: nat): nat {
    header + keyLen + dataLen + extLen
  }

  /** The 64-bit token counter of `get_cache_id`: it wraps and skips 0. */
  function NextCacheId(last: u64): (r: u64)
    ensures r != 0
    ensures (last + 1) % U64 != 0 ==> r == last + 1
  {
    if last + 1 == U64 then 1 else last + 1
  }
}
