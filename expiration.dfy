/** The 34 expiration buckets: bucket i < 32 holds items whose remaining
    lifetime is at least 2^i seconds, bucket 32 the longest lifetimes and
    bucket 33 the items that never expire. */
module Expiration {
  import opened CacheTypes

  const BUCKETS: nat := 34
  /** The bucket of items with `expire_time == 0`; it is never swept. */
  const NEVER: nat := 33
  /** Buckets 0..32 are swept by `expire_items`. */
  const SWEPT: nat := 33

  function Pow2(n: nat): (r: nat)
    ensures r >= 1
  {
    if n == 0 then 1 else 2 * Pow2(n - 1)
  }

  /** `expiration_time_[i]` as the constructor fills it (133-136). */
  function ExpirationTime(i: nat): (r: nat)
    requires i <= 32
    ensures r >= 1
  {
    if i < 32 then Pow2(i) else 0xFFFF_FFFF
  }

  lemma {:induction false} Pow2Monotonic(n: nat, m: nat)
    requires n <= m
    ensures Pow2(n) <= Pow2(m)
    decreases m
  {
    if n < m {
      Pow2Monotonic(n, m - 1);
    }
  }

  /** Every entry below index 32 fits the 32-bit table. */
  lemma Pow2Below(n: nat)
    requires n <= 31
    ensures Pow2(n) <= 0x8000_0000
  {
    assert Pow2(8) == 256;
    assert Pow2(16) == 65536;
    assert Pow2(24) == 0x100_0000;
    assert Pow2(31) == 0x8000_0000;
    Pow2Monotonic(n, 31);
  }

  /** The table is strictly increasing, so its buckets do not overlap. */
  lemma ExpirationTimeIncreasing(i: nat, j: nat)
    requires i < j <= 32
    ensures ExpirationTime(i) < ExpirationTime(j)
    decreases j
  {
    if j == 32 {
      Pow2Below(i);
    } else if i < j - 1 {
      ExpirationTimeIncreasing(i, j - 1);
    }
  }

  /** The bucket `get_expiration_id` chooses for an item expiring at
      `expireTime`, seen at `currTime`. */
  ghost predicate InBucket(r: nat, currTime: nat, expireTime: nat) {
    if expireTime == 0 then r == NEVER
    else if expireTime <= currTime then r == 0
    else
      var remaining := expireTime - currTime;
      && r <= 32
      && ExpirationTime(r) <= remaining
      && (r < 32 ==> remaining < ExpirationTime(r + 1))
  }

  /** Each expiration time has exactly one bucket. */
  lemma InBucketUnique(r1: nat, r2: nat, currTime: nat, expireTime: u32)
    requires InBucket(r1, currTime, expireTime) && InBucket(r2, currTime, expireTime)
    ensures r1 == r2
  {
    if expireTime > currTime && r1 != r2 {
      var lo, hi := if r1 < r2 then r1 else r2, if r1 < r2 then r2 else r1;
      if lo + 1 < hi {
        ExpirationTimeIncreasing(lo + 1, hi);
      }
    }
  }

  /** Scanning the table upwards from entry `i`: the last bucket whose
      lower bound does not exceed `remaining`. */
  function ScanBucket(remaining: nat, i: nat): (r: nat)
    requires 1 <= i <= 33 && remaining >= 1
    requires forall j :: 1 <= j < i ==> ExpirationTime(j) <= remaining
    ensures r <= 32 && ExpirationTime(r) <= remaining
    ensures r < 32 ==> remaining < ExpirationTime(r + 1)
    decreases 33 - i
  {
    if i == 33 || remaining < ExpirationTime(i) then i - 1 else ScanBucket(remaining, i + 1)
  }

  /** The bucket of an item expiring at `expireTime`, seen at `currTime`,
      as a function. */
  function Bucket(currTime: u32, expireTime: u32): (r: nat)
    ensures r < BUCKETS && InBucket(r, currTime, expireTime)
  {
    if expireTime == 0 then NEVER
    else if expireTime > currTime then ScanBucket(expireTime - currTime, 1)
    else 0
  }

  /** `get_expiration_id`: 33 for "never", 0 for an already expired time,
      otherwise the bucket whose lower bound is the largest table entry
      not above the remaining lifetime. */
  method GetExpirationId(currTime: u32, expireTime: u32) returns (r: nat)
    ensures r < BUCKETS
    ensures r == NEVER <==> expireTime == 0
    ensures InBucket(r, currTime, expireTime)
    ensures r == Bucket(currTime, expireTime)
  {
    if expireTime == 0 {
      return NEVER;
    } else if expireTime > currTime {
      var expiration := expireTime - currTime;
      var i := 1;
      while i < 33
        invariant 1 <= i <= 33
        invariant forall j :: 1 <= j < i ==> ExpirationTime(j) <= expiration
      {
        if expiration < ExpirationTime(i) {
          break;
        }
        i := i + 1;
      }
      InBucketUnique(i - 1, Bucket(currTime, expireTime), currTime, expireTime);
      return i - 1;
    } else {
      return 0;
    }
  }

  /** Where `expire_items` moves a surviving item of bucket `i` with
      `remaining` seconds left: scanning down from `i`, the first bucket
      whose lower bound does not exceed the remaining lifetime. */
  function Finer(i: nat, remaining: nat): (j: nat)
    requires i <= 32 && remaining >= 1
    ensures j <= i && ExpirationTime(j) <= remaining
    ensures forall k :: j < k <= i ==> remaining < ExpirationTime(k)
  {
    if ExpirationTime(i) <= remaining then i else Finer(i - 1, remaining)
  }

  /** The inner loop of `expire_items` (283-291) that looks for that
      bucket. */
  method FinerBucket(i: nat, remaining: nat) returns (j: nat)
    requires i <= 32 && remaining >= 1
    ensures j == Finer(i, remaining)
    ensures j <= i && ExpirationTime(j) <= remaining
  {
    j := i;
    while remaining < ExpirationTime(j)
      invariant j <= i
      invariant Finer(j, remaining) == Finer(i, remaining)
      decreases j
    {
      j := j - 1;
    }
  }

  /** A survivor of bucket `i` that moves to a finer bucket lands in the
      bucket its remaining lifetime belongs to. */
  lemma FinerFits(i: nat, currTime: u32, expireTime: u32)
    requires i <= 32 && expireTime > currTime && Finer(i, expireTime - currTime) < i
    ensures InBucket(Finer(i, expireTime - currTime), currTime, expireTime)
  {
  }

  /** Next sweep deadline of bucket `i` (`curr_time_.realtime(curr_time,
      expiration_time_[i])`): the bucket's span after now, saturated at the
      largest 32-bit time. */
  function CheckDeadline(currTime: u32, i: nat): (r: u32)
    requires i <= 32
    ensures r > currTime || r == U32 - 1
    ensures r <= currTime + ExpirationTime(i)
    ensures r == currTime + ExpirationTime(i) || (r == U32 - 1 && currTime + ExpirationTime(i) >= U32)
  {
    if currTime + ExpirationTime(i) < U32 then currTime + ExpirationTime(i) else U32 - 1
  }
}
