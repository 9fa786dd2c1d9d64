/** The slab-class table of the allocator: which size class holds an item of
    a given size, how the table is laid out by `init`, and the bytes parked
    on the per-class free lists. Class ids start at 1 (`CLASSID_MIN`); index
    0 of the table is the all-zero sentinel below the first class. */
module Slab {

  const CLASSID_MIN: nat := 1
  const CHUNK_ALIGN_BYTES: nat := 8
  /** Upper bound on the free-list length of a class, and the per-class budget. */
  const FREE_COUNT_CAP: nat := 1000
  const FREE_BYTES_BUDGET: nat := 1024 * 1024

  /** The table `max_size_[0..class_id_max_]`: a zero sentinel at index 0,
      then strictly increasing class sizes. */
  ghost predicate TableOk(maxSize: seq<nat>, classIdMax: nat) {
    && CLASSID_MIN <= classIdMax < |maxSize|
    && maxSize[0] == 0
    && forall i, j :: 0 <= i < j <= classIdMax ==> Smaller(maxSize, i, j)
  }

  /** Class `i` is smaller than class `j`. It names the ordering so that
      the table's invariant is only used where a proof asks for it. */
  ghost predicate Smaller(maxSize: seq<nat>, i: nat, j: nat) {
    i < |maxSize| && j < |maxSize| && maxSize[i] < maxSize[j]
  }

  lemma TableIncreasing(maxSize: seq<nat>, classIdMax: nat, i: nat, j: nat)
    requires TableOk(maxSize, classIdMax) && i < j <= classIdMax
    ensures maxSize[i] < maxSize[j]
  {
    assert Smaller(maxSize, i, j);
  }

  /** First index at or after `c` whose size is at least `size`, or `top + 1`. */
  function ScanUp(maxSize: seq<nat>, top: nat, size: nat, c: nat): (r: nat)
    requires top < |maxSize| && c <= top + 1
    ensures c <= r <= top + 1
    ensures r <= top ==> size <= maxSize[r]
    ensures forall j :: c <= j < r ==> maxSize[j] < size
    decreases top + 1 - c
  {
    if c > top then top + 1
    else if size <= maxSize[c] then c
    else ScanUp(maxSize, top, size, c + 1)
  }

  /** The class of an item of `size` bytes: the smallest table index whose
      size is at least `size`, or 0 ("no class") when even the largest
      class is too small. Since index 0 is the zero sentinel, a request of
      0 bytes is also answered with 0. */
  function ClassFor(maxSize: seq<nat>, classIdMax: nat, size: nat): (r: nat)
    requires TableOk(maxSize, classIdMax)
    ensures r <= classIdMax
    ensures r == 0 <==> size == 0 || size > maxSize[classIdMax]
    ensures r != 0 ==> maxSize[r - 1] < size <= maxSize[r]
  {
    var i := ScanUp(maxSize, classIdMax, size, 0);
    if i > classIdMax then 0
    else if i < classIdMax then TableIncreasing(maxSize, classIdMax, i, classIdMax); i
    else i
  }

  /** A class index bracketing `size` is the answer. */
  lemma ClassForUnique(maxSize: seq<nat>, classIdMax: nat, size: nat, c: nat)
    requires TableOk(maxSize, classIdMax)
    requires 1 <= c <= classIdMax && maxSize[c - 1] < size <= maxSize[c]
    ensures ClassFor(maxSize, classIdMax, size) == c
  {
    var r := ClassFor(maxSize, classIdMax, size);
    assert size <= maxSize[classIdMax] by {
      if c < classIdMax { TableIncreasing(maxSize, classIdMax, c, classIdMax); }
    }
    assert r != 0;
    if r < c - 1 {
      TableIncreasing(maxSize, classIdMax, r, c - 1);
    }
  }

  /** Class monotonicity: a larger request never gets a smaller class. */
  lemma ClassForMonotonic(maxSize: seq<nat>, classIdMax: nat, s1: nat, s2: nat)
    requires TableOk(maxSize, classIdMax)
    requires 0 < s1 <= s2 <= maxSize[classIdMax]
    ensures ClassFor(maxSize, classIdMax, s1) <= ClassFor(maxSize, classIdMax, s2)
    ensures maxSize[ClassFor(maxSize, classIdMax, s1)] <= maxSize[ClassFor(maxSize, classIdMax, s2)]
  {
    var r1 := ClassFor(maxSize, classIdMax, s1);
    var r2 := ClassFor(maxSize, classIdMax, s2);
    if r1 < r2 {
      TableIncreasing(maxSize, classIdMax, r1, r2);
    }
  }

  /** `get_class_id`: look the class up starting from the one-slot hint
      `last_class_id_`, scanning down when the request is below the hinted
      class and up otherwise. The answer never depends on the hint; the new
      hint is the answer, except that a request too large for every class
      leaves the hint as it was. */
  method LookupClass(maxSize: seq<nat>, classIdMax: nat, hint: nat, size: nat)
    returns (id: nat, newHint: nat)
    requires TableOk(maxSize, classIdMax) && hint <= classIdMax
    ensures id == ClassFor(maxSize, classIdMax, size)
    ensures newHint == if size > maxSize[classIdMax] then hint else id
    ensures newHint <= classIdMax
  {
    var c: nat := hint;
    if size < maxSize[c] {
      assert c >= CLASSID_MIN;
      if size > maxSize[c - 1] {
        ClassForUnique(maxSize, classIdMax, size, c);
        return c, c;
      }
      c := c - 1;
      while c >= CLASSID_MIN
        invariant c < hint
        invariant size <= maxSize[c]
      {
        if size > maxSize[c - 1] {
          break;
        }
        c := c - 1;
      }
      if c >= CLASSID_MIN {
        ClassForUnique(maxSize, classIdMax, size, c);
      }
      return c, c;
    } else {
      while c <= classIdMax
        invariant hint <= c <= classIdMax + 1
        invariant forall j :: hint <= j < c ==> maxSize[j] < size
      {
        if size <= maxSize[c] {
          if c >= CLASSID_MIN {
            if hint < c {
              assert maxSize[c - 1] < size;
            } else {
              TableIncreasing(maxSize, classIdMax, c - 1, c);
            }
            ClassForUnique(maxSize, classIdMax, size, c);
          }
          return c, c;
        }
        c := c + 1;
      }
      return 0, hint;
    }
  }

  /** A size rounded up to the 8-byte chunk alignment (157-159). */
  function Align(size: nat): (r: nat)
    ensures r % CHUNK_ALIGN_BYTES == 0
    ensures size <= r < size + CHUNK_ALIGN_BYTES
  {
    if size % CHUNK_ALIGN_BYTES != 0 then size + (CHUNK_ALIGN_BYTES - size % CHUNK_ALIGN_BYTES) else size
  }

  /** Free-list cap of a class: `min(1000, 1 MiB / size)` (162-165). */
  function FreeCap(size: nat): (r: nat)
    requires size > 0
    ensures r <= FREE_COUNT_CAP
    ensures r * size <= FREE_BYTES_BUDGET
    ensures r == FREE_COUNT_CAP || (r + 1) * size > FREE_BYTES_BUDGET
  {
    var n := FREE_BYTES_BUDGET / size;
    if n > FREE_COUNT_CAP then FREE_COUNT_CAP else n
  }

  /** Candidate sizes that make a valid table once aligned: increasing, all
      below the forced last class. */
  ghost predicate CandidatesOk(sizes: seq<nat>, lastSize: nat) {
    && lastSize > 0
    && (forall k :: 0 <= k < |sizes| ==> 0 < Align(sizes[k]) < lastSize)
    && (forall i, j :: 0 <= i < j < |sizes| ==> Align(sizes[i]) < Align(sizes[j]))
  }

  function Min(a: nat, b: nat): nat {
    if a < b then a else b
  }

  /** The integer part of `init`'s table loop. `sizes` are the successive
      candidate sizes for which the floating-point growth test held; each is
      aligned and recorded with its free-list cap until the table capacity
      `classIdCap` (`CLASSID_MAX`) is reached, and the class after the last
      one is forced to `lastSize` (`sizeof(Cache_Item) + item_size_max`),
      with a free-list cap of 0. */
  method BuildClassTable(sizes: seq<nat>, lastSize: nat, classIdCap: nat)
    returns (maxSize: seq<nat>, freeMax: seq<nat>, classIdMax: nat)
    requires classIdCap >= CLASSID_MIN
    requires forall k :: 0 <= k < |sizes| ==> sizes[k] > 0
    ensures |maxSize| == classIdCap + 1 && |freeMax| == classIdCap + 1
    ensures classIdMax == CLASSID_MIN + Min(|sizes|, classIdCap - CLASSID_MIN)
    ensures forall c :: CLASSID_MIN <= c < classIdMax ==>
      maxSize[c] == Align(sizes[c - CLASSID_MIN]) && freeMax[c] == FreeCap(maxSize[c])
    ensures maxSize[classIdMax] == lastSize && freeMax[classIdMax] == 0
    ensures maxSize[0] == 0 && freeMax[0] == 0
    ensures forall c :: classIdMax < c <= classIdCap ==> maxSize[c] == 0 && freeMax[c] == 0
    ensures CandidatesOk(sizes, lastSize) ==> TableOk(maxSize, classIdMax)
  {
    maxSize := seq(classIdCap + 1, _ => 0);
    freeMax := seq(classIdCap + 1, _ => 0);
    classIdMax := CLASSID_MIN;
    while classIdMax < classIdCap && classIdMax - CLASSID_MIN < |sizes|
      invariant CLASSID_MIN <= classIdMax <= classIdCap
      invariant classIdMax - CLASSID_MIN <= |sizes|
      invariant |maxSize| == classIdCap + 1 && |freeMax| == classIdCap + 1
      invariant forall c :: CLASSID_MIN <= c < classIdMax ==>
        maxSize[c] == Align(sizes[c - CLASSID_MIN]) && freeMax[c] == FreeCap(maxSize[c])
      invariant forall c :: (c == 0 || classIdMax <= c <= classIdCap) ==> maxSize[c] == 0 && freeMax[c] == 0
    {
      var size := Align(sizes[classIdMax - CLASSID_MIN]);
      maxSize := maxSize[classIdMax := size];
      freeMax := freeMax[classIdMax := FreeCap(size)];
      classIdMax := classIdMax + 1;
    }
    maxSize := maxSize[classIdMax := lastSize];
    if CandidatesOk(sizes, lastSize) {
      forall i, j | 0 <= i < j <= classIdMax ensures maxSize[i] < maxSize[j] {
        if i > 0 && j < classIdMax {
          assert Align(sizes[i - 1]) < Align(sizes[j - 1]);
        } else if i > 0 {
          assert 0 < Align(sizes[i - 1]) < lastSize;
        } else if j < classIdMax {
          assert 0 < Align(sizes[j - 1]);
        }
      }
    }
  }

  /** Bytes parked on the free lists of the classes below `n`: `counts[c]`
      buffers of `sizes[c]` bytes each. */
  ghost function ClassBytes(counts: seq<nat>, sizes: seq<nat>, n: nat): nat
    requires n <= |counts| == |sizes|
    decreases n
  {
    if n == 0 then 0 else ClassBytes(counts, sizes, n - 1) + counts[n - 1] * sizes[n - 1]
  }

  /** One more free buffer of class `c` adds exactly that class's size. */
  lemma {:induction false} ClassBytesInc(counts: seq<nat>, sizes: seq<nat>, c: nat, n: nat)
    requires n <= |counts| == |sizes| && c < |counts|
    ensures ClassBytes(counts[c := counts[c] + 1], sizes, n) == ClassBytes(counts, sizes, n) + if c < n then sizes[c] else 0
    decreases n
  {
    if n > 0 {
      ClassBytesInc(counts, sizes, c, n - 1);
      if c == n - 1 {
        assert (counts[c] + 1) * sizes[c] == counts[c] * sizes[c] + sizes[c];
      }
    }
  }

  lemma ClassBytesDec(counts: seq<nat>, sizes: seq<nat>, c: nat)
    requires |counts| == |sizes| && c < |counts| && counts[c] > 0
    ensures ClassBytes(counts[c := counts[c] - 1], sizes, |counts|) + sizes[c] == ClassBytes(counts, sizes, |counts|)
  {
    var lower := counts[c := counts[c] - 1];
    ClassBytesInc(lower, sizes, c, |counts|);
    assert lower[c := lower[c] + 1] == counts;
  }

  /** Empty free lists hold no bytes. */
  lemma {:induction false} ClassBytesZero(counts: seq<nat>, sizes: seq<nat>, n: nat)
    requires n <= |counts| == |sizes|
    requires forall c :: 0 <= c < |counts| ==> counts[c] == 0
    ensures ClassBytes(counts, sizes, n) == 0
    decreases n
  {
    if n > 0 {
      ClassBytesZero(counts, sizes, n - 1);
    }
  }
}
