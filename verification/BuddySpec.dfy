/** The splitting allocator on the sequence of blocks that its list strings together. */
module BuddySpec {

  const MIN_ORDER: nat := 12
  const MAX_ORDER: nat := 20

  function Pow2(e: nat): (p: nat)
    ensures p >= 1
  {
    if e == 0 then 1 else 2 * Pow2(e - 1)
  }

  const MIN_BLOCK: nat := 4096
  const MEMORY: nat := 1048576

  lemma Powers()
    ensures Pow2(12) == MIN_BLOCK && Pow2(13) == 8192 && Pow2(14) == 16384 && Pow2(15) == 32768 && Pow2(16) == 65536
    ensures Pow2(17) == 131072 && Pow2(18) == 262144 && Pow2(19) == 524288 && Pow2(20) == MEMORY
  {
    assert Pow2(4) == 16;
    assert Pow2(8) == 256;
    assert Pow2(12) == 4096;
    assert Pow2(16) == 65536;
    assert Pow2(20) == 1048576;
  }

  /** The fields of a `mem_block` other than its links. */
  datatype Block = Block(size: int, inUse: bool, used: int, order: int, value: char, wasted: int, isHead: bool)

  function Initial(): seq<Block> {
    [Block(MEMORY, false, 0, MAX_ORDER, 'N', 0, true)]
  }

  /** `set_block_order`: how often a size can be halved before nothing is left. */
  function Log2(size: int): nat
    decreases if size < 0 then 0 else size
  {
    if size / 2 >= 1 then 1 + Log2(size / 2) else 0
  }

  /** Where block `k` begins. */
  function Offset(bs: seq<Block>, k: nat): int
    requires k <= |bs|
  {
    if k == 0 then 0 else Offset(bs, k - 1) + bs[k - 1].size
  }

  function Times(m: int, s: int): int { m * s }

  ghost predicate Multiple(x: int, s: int) {
    exists m :: Times(m, s) == x
  }

  /** A block is a power of two in size, knows its order, and lies at a multiple of its size. */
  ghost predicate Aligned(b: Block, offset: int) {
    && MIN_ORDER <= b.order <= MAX_ORDER
    && b.size == Pow2(b.order)
    && Multiple(offset, b.size)
  }

  ghost predicate AlignedAt(bs: seq<Block>, k: int)
    requires 0 <= k < |bs|
  {
    Aligned(bs[k], Offset(bs, k))
  }

  /** The blocks tile the memory. */
  ghost predicate Tiling(bs: seq<Block>) {
    && |bs| >= 1
    && Offset(bs, |bs|) == MEMORY
    && forall k :: 0 <= k < |bs| ==> AlignedAt(bs, k)
  }

  function LeftHalf(b: Block): Block {
    b.(size := b.size / 2, order := b.order - 1, used := 0, wasted := 0)
  }

  function RightHalf(b: Block): Block {
    Block(b.size / 2, false, 0, b.order - 1, 'N', 0, false)
  }

  function Split(bs: seq<Block>, k: nat): seq<Block>
    requires k < |bs|
  {
    bs[..k] + [LeftHalf(bs[k]), RightHalf(bs[k])] + bs[k + 1..]
  }

  /** The loop of `find_free_block` from block `i` on; `best` is the closest block found so far. */
  function Scan(bs: seq<Block>, size: int, i: nat, best: nat, bestSize: int): (r: nat)
    requires i <= |bs|
    decreases |bs| - i
  {
    if i == |bs| then best
    else if bs[i].inUse then Scan(bs, size, i + 1, best, bestSize)
    else if bs[i].size == size then i
    else if bs[i].size >= size && bs[i].size <= bestSize then Scan(bs, size, i + 1, i, bs[i].size)
    else Scan(bs, size, i + 1, best, bestSize)
  }

  function FindFree(bs: seq<Block>, size: int): nat {
    Scan(bs, size, 0, 0, MEMORY)
  }

  /** The splitting loop of `buddy_alloc`. */
  function SplitDown(bs: seq<Block>, k: nat, size: int): (r: seq<Block>)
    requires k < |bs|
    ensures |r| >= |bs|
    decreases if bs[k].size < 0 then 0 else bs[k].size
  {
    if bs[k].size / 2 >= size && bs[k].size / 2 >= MIN_BLOCK then SplitDown(Split(bs, k), k, size) else bs
  }

  function Taken(b: Block, size: int, value: char): Block {
    b.(inUse := true, value := value, wasted := b.size - size, used := size, order := Log2(b.size))
  }

  /** `buddy_alloc`: the C comparison of `size` with the unsigned memory size turns negative requests away too. */
  function Alloc(bs: seq<Block>, size: int, value: char): (r: seq<Block>)
    requires bs != []
    ensures r != []
  {
    if size < 0 || size > MEMORY then bs else
      var k := FindFree(bs, size);
      if k < |bs| then
        var split := SplitDown(bs, k, size);
        split[k := Taken(split[k], size, value)]
      else
        bs
  }

  // ----- splitting keeps the tiling -----

  lemma SplitIndex(bs: seq<Block>, k: nat, j: nat)
    requires k < |bs| && j <= |bs|
    ensures |Split(bs, k)| == |bs| + 1
    ensures Split(bs, k)[j] == if j < k then bs[j] else if j == k then LeftHalf(bs[k])
                               else if j == k + 1 then RightHalf(bs[k]) else bs[j - 1]
  {
  }

  lemma {:induction false} LogOfPower(e: nat)
    ensures Log2(Pow2(e)) == e
  {
    if e > 0 {
      LogOfPower(e - 1);
      assert Pow2(e) / 2 == Pow2(e - 1);
    }
  }

  lemma HalfMultiple(x: int, h: int)
    requires Multiple(x, 2 * h)
    ensures Multiple(x, h) && Multiple(x + h, h)
  {
    var m :| Times(m, 2 * h) == x;
    assert Times(2 * m, h) == x;
    assert Times(2 * m + 1, h) == x + h;
  }

  /** A block above the least size is above the least order. */
  lemma LargeOrder(b: Block, offset: int)
    requires Aligned(b, offset) && b.size > MIN_BLOCK
    ensures b.order > MIN_ORDER && b.size % 2 == 0
    ensures Aligned(LeftHalf(b), offset) && Aligned(RightHalf(b), offset + b.size / 2)
  {
    assert Pow2(12) == MIN_BLOCK by { Powers(); }
    HalfMultiple(offset, Pow2(b.order - 1));
  }

  lemma {:induction false} SplitOffsets(bs: seq<Block>, k: nat, j: nat)
    requires k < |bs| && bs[k].size % 2 == 0 && j <= |bs| + 1
    ensures |Split(bs, k)| == |bs| + 1
    ensures Offset(Split(bs, k), j) == if j <= k then Offset(bs, j)
                                       else if j == k + 1 then Offset(bs, k) + bs[k].size / 2 else Offset(bs, j - 1)
  {
    if j > 0 {
      SplitOffsets(bs, k, j - 1);
      SplitIndex(bs, k, j - 1);
    }
  }

  lemma SplitAligned(bs: seq<Block>, k: nat, j: nat)
    requires Tiling(bs) && k < |bs| && bs[k].size > MIN_BLOCK && j <= |bs|
    ensures |Split(bs, k)| == |bs| + 1 && AlignedAt(Split(bs, k), j)
  {
    assert AlignedAt(bs, k);
    LargeOrder(bs[k], Offset(bs, k));
    SplitOffsets(bs, k, j);
    SplitIndex(bs, k, j);
    if j < k {
      assert AlignedAt(bs, j);
    } else if j > k + 1 {
      assert AlignedAt(bs, j - 1);
    }
  }

  lemma SplitTiling(bs: seq<Block>, k: nat)
    requires Tiling(bs) && k < |bs| && bs[k].size > MIN_BLOCK
    ensures Tiling(Split(bs, k))
  {
    var r := Split(bs, k);
    assert AlignedAt(bs, k);
    LargeOrder(bs[k], Offset(bs, k));
    SplitOffsets(bs, k, |bs| + 1);
    hide Aligned, Offset, Split;
    forall j | 0 <= j < |r|
      ensures AlignedAt(r, j)
    {
      SplitAligned(bs, k, j);
    }
  }

  // ----- finding a block -----

  /** Block `k` is free and large enough. */
  predicate Fits(bs: seq<Block>, size: int, k: int) {
    0 <= k < |bs| && !bs[k].inUse && bs[k].size >= size
  }

  /** No block is larger than the memory. */
  ghost predicate Bounded(bs: seq<Block>) {
    forall k :: 0 <= k < |bs| ==> 1 <= bs[k].size <= MEMORY
  }

  /** Block `best` is the closest among the first `i`, or none of them fits and it is the head. */
  ghost predicate ClosestSoFar(bs: seq<Block>, size: int, i: nat, best: nat, bestSize: int) {
    || (best == 0 && bestSize == MEMORY && forall j :: 0 <= j < i ==> !Fits(bs, size, j))
    || (best < i && Fits(bs, size, best) && bestSize == bs[best].size
        && forall j :: 0 <= j < i && Fits(bs, size, j) ==> bs[best].size <= bs[j].size)
  }

  lemma {:induction false} ScanClosest(bs: seq<Block>, size: int, i: nat, best: nat, bestSize: int)
    requires Bounded(bs) && i <= |bs| && ClosestSoFar(bs, size, i, best, bestSize)
    ensures var r := Scan(bs, size, i, best, bestSize);
            if exists j :: Fits(bs, size, j)
            then Fits(bs, size, r) && forall j :: Fits(bs, size, j) ==> bs[r].size <= bs[j].size
            else r == 0
    decreases |bs| - i
  {
    if i < |bs| {
      assert Fits(bs, size, i) <==> !bs[i].inUse && bs[i].size >= size;
      if bs[i].inUse {
        ScanClosest(bs, size, i + 1, best, bestSize);
      } else if bs[i].size == size {
      } else if bs[i].size >= size && bs[i].size <= bestSize {
        ScanClosest(bs, size, i + 1, i, bs[i].size);
      } else {
        ScanClosest(bs, size, i + 1, best, bestSize);
      }
    }
  }

  /** The search finds a free block of least sufficient size if there is one, and else answers the head. */
  lemma FindsBestFit(bs: seq<Block>, size: int)
    requires Bounded(bs)
    ensures var r := FindFree(bs, size);
            if exists j :: Fits(bs, size, j)
            then Fits(bs, size, r) && forall j :: Fits(bs, size, j) ==> bs[r].size <= bs[j].size
            else r == 0
  {
    ScanClosest(bs, size, 0, 0, MEMORY);
  }

  /** No block before `i` has exactly the size asked for, and `best` is the latest of its size. */
  ghost predicate LatestSoFar(bs: seq<Block>, size: int, i: nat, best: nat) {
    forall j :: 0 <= j < i && Fits(bs, size, j) ==>
      bs[j].size != size && best < |bs| && (bs[j].size == bs[best].size ==> j <= best)
  }

  lemma {:induction false} ScanLatest(bs: seq<Block>, size: int, i: nat, best: nat, bestSize: int)
    requires Bounded(bs) && i <= |bs| && ClosestSoFar(bs, size, i, best, bestSize) && LatestSoFar(bs, size, i, best)
    ensures var r := Scan(bs, size, i, best, bestSize);
            forall j :: Fits(bs, size, j) && Fits(bs, size, r) && bs[j].size == bs[r].size && j != r ==>
              if bs[r].size == size then r < j else j < r
    decreases |bs| - i
  {
    if i < |bs| {
      assert Fits(bs, size, i) <==> !bs[i].inUse && bs[i].size >= size;
      if bs[i].inUse {
        ScanLatest(bs, size, i + 1, best, bestSize);
      } else if bs[i].size == size {
      } else if bs[i].size >= size && bs[i].size <= bestSize {
        ScanLatest(bs, size, i + 1, i, bs[i].size);
      } else {
        ScanLatest(bs, size, i + 1, best, bestSize);
      }
    }
  }

  /** Among several closest fits the search answers the first one if they have exactly the size asked
      for, and otherwise the last one. */
  lemma BreaksTies(bs: seq<Block>, size: int, j: int)
    requires Bounded(bs) && Fits(bs, size, j)
    ensures var r := FindFree(bs, size);
            r < |bs| && (bs[j].size == bs[r].size && j != r ==> if bs[r].size == size then r < j else j < r)
  {
    FindsBestFit(bs, size);
    ScanLatest(bs, size, 0, 0, MEMORY);
  }

  // ----- what is allocated -----

  /** The intervals in use: where they begin, how long they are, and what was asked for. */
  ghost function Allocated(bs: seq<Block>): set<(int, int, int, char)> {
    set k | 0 <= k < |bs| && bs[k].inUse :: (Offset(bs, k), bs[k].size, bs[k].used, bs[k].value)
  }

  /** Splitting a free block changes nothing about the intervals in use. */
  lemma SplitAllocated(bs: seq<Block>, k: nat)
    requires k < |bs| && bs[k].size % 2 == 0 && !bs[k].inUse
    ensures Allocated(Split(bs, k)) == Allocated(bs)
  {
    var r := Split(bs, k);
    SplitOffsets(bs, k, 0);
    hide Split;
    forall x | x in Allocated(r)
      ensures x in Allocated(bs)
    {
      var j :| 0 <= j < |r| && r[j].inUse && x == (Offset(r, j), r[j].size, r[j].used, r[j].value);
      SplitIndex(bs, k, j);
      SplitOffsets(bs, k, j);
      assert j != k && j != k + 1;
      var i := if j < k then j else j - 1;
      assert bs[i].inUse && x == (Offset(bs, i), bs[i].size, bs[i].used, bs[i].value);
    }
    forall x | x in Allocated(bs)
      ensures x in Allocated(r)
    {
      var i :| 0 <= i < |bs| && bs[i].inUse && x == (Offset(bs, i), bs[i].size, bs[i].used, bs[i].value);
      var j := if i < k then i else i + 1;
      SplitIndex(bs, k, j);
      SplitOffsets(bs, k, j);
      assert r[j].inUse && x == (Offset(r, j), r[j].size, r[j].used, r[j].value);
    }
  }

  /** A block that cannot be halved for a request is of the least size or less than twice the request. */
  lemma Tight(b: Block, offset: int, size: int)
    requires Aligned(b, offset)
    requires !(b.size / 2 >= size && b.size / 2 >= MIN_BLOCK)
    ensures b.size == MIN_BLOCK || b.size < 2 * size
  {
    Powers();
    if b.order > MIN_ORDER {
      PowerMonotone(MIN_ORDER + 1, b.order);
    }
  }

  lemma {:induction false} PowerMonotone(a: nat, b: nat)
    requires a <= b
    ensures Pow2(a) <= Pow2(b)
  {
    if a < b {
      PowerMonotone(a, b - 1);
    }
  }

  /** The splitting loop keeps the tiling, the intervals in use and where block `k` begins; it stops
      at a block that is large enough if block `k` was, and not larger than necessary. */
  ghost predicate Narrowed(bs: seq<Block>, k: nat, size: int, r: seq<Block>)
    requires k < |bs|
  {
    && Tiling(r) && k < |r| && Offset(r, k) == Offset(bs, k) && r[k].inUse == bs[k].inUse
    && (r[k].size == MIN_BLOCK || r[k].size < 2 * size)
    && (bs[k].size >= size ==> r[k].size >= size) && r[k].size <= bs[k].size
    && (!bs[k].inUse ==> Allocated(r) == Allocated(bs))
  }

  lemma {:induction false} SplitDownNarrows(bs: seq<Block>, k: nat, size: int)
    requires Tiling(bs) && k < |bs|
    ensures Narrowed(bs, k, size, SplitDown(bs, k, size))
    decreases if bs[k].size < 0 then 0 else bs[k].size
  {
    assert AlignedAt(bs, k);
    hide Tiling, Aligned, Allocated, Split, Pow2;
    if bs[k].size / 2 >= size && bs[k].size / 2 >= MIN_BLOCK {
      LargeOrder(bs[k], Offset(bs, k));
      SplitTiling(bs, k);
      SplitOffsets(bs, k, k);
      SplitIndex(bs, k, k);
      if !bs[k].inUse {
        SplitAllocated(bs, k);
      }
      SplitDownNarrows(Split(bs, k), k, size);
    } else {
      Tight(bs[k], Offset(bs, k), size);
    }
  }

  // ----- allocating -----

  lemma TilingBounded(bs: seq<Block>)
    requires Tiling(bs)
    ensures Bounded(bs)
  {
    Powers();
    forall k | 0 <= k < |bs|
      ensures 1 <= bs[k].size <= MEMORY
    {
      assert AlignedAt(bs, k);
      PowerMonotone(bs[k].order, MAX_ORDER);
    }
  }

  lemma {:induction false} TakeOffsets(bs: seq<Block>, k: nat, x: Block, j: nat)
    requires k < |bs| && x.size == bs[k].size && j <= |bs|
    ensures Offset(bs[k := x], j) == Offset(bs, j)
  {
    if j > 0 {
      TakeOffsets(bs, k, x, j - 1);
    }
  }

  lemma TakeTiling(bs: seq<Block>, k: nat, size: int, value: char)
    requires Tiling(bs) && k < |bs|
    ensures Tiling(bs[k := Taken(bs[k], size, value)])
  {
    var x := Taken(bs[k], size, value);
    var r := bs[k := x];
    assert AlignedAt(bs, k);
    LogOfPower(bs[k].order);
    TakeOffsets(bs, k, x, |bs|);
    hide Log2, Pow2, Offset;
    forall j | 0 <= j < |r|
      ensures AlignedAt(r, j)
    {
      TakeOffsets(bs, k, x, j);
      assert AlignedAt(bs, j);
    }
  }

  /** Taking a free block adds its interval and changes no other. */
  lemma TakeAllocated(bs: seq<Block>, k: nat, size: int, value: char)
    requires k < |bs| && !bs[k].inUse
    ensures Allocated(bs[k := Taken(bs[k], size, value)]) == Allocated(bs) + {(Offset(bs, k), bs[k].size, size, value)}
  {
    var x := Taken(bs[k], size, value);
    var r := bs[k := x];
    hide Log2, Offset;
    forall j | 0 <= j < |bs|
      ensures Offset(r, j) == Offset(bs, j)
    {
      TakeOffsets(bs, k, x, j);
    }
    forall y | y in Allocated(bs)
      ensures y in Allocated(r)
    {
      var i :| 0 <= i < |bs| && bs[i].inUse && y == (Offset(bs, i), bs[i].size, bs[i].used, bs[i].value);
      assert r[i].inUse && y == (Offset(r, i), r[i].size, r[i].used, r[i].value);
    }
    assert r[k].inUse && (Offset(r, k), r[k].size, r[k].used, r[k].value) in Allocated(r);
  }

  /** Every request, whether it can be met or not, keeps the tiling. */
  lemma AllocTiles(bs: seq<Block>, size: int, value: char)
    requires Tiling(bs)
    ensures Tiling(Alloc(bs, size, value))
  {
    hide Tiling, SplitDown;
    TilingSize(bs);
    var k := FindFree(bs, size);
    if 0 <= size <= MEMORY && k < |bs| {
      SplitDownNarrows(bs, k, size);
      TakeTiling(SplitDown(bs, k, size), k, size, value);
    }
  }

  lemma TilingSize(bs: seq<Block>)
    requires Tiling(bs)
    ensures |bs| >= 1
  {
  }

  lemma {:induction false} OffsetsApart(bs: seq<Block>, i: nat, j: nat)
    requires Bounded(bs) && i < j <= |bs|
    ensures Offset(bs, i) + bs[i].size <= Offset(bs, j)
  {
    if i < j - 1 {
      OffsetsApart(bs, i, j - 1);
    }
  }

  /** The interval `x` does not reach into the `size` bytes from `offset` on. */
  predicate Apart(x: (int, int, int, char), offset: int, size: int) {
    x.0 + x.1 <= offset || offset + size <= x.0
  }

  /** A request for which some free block is large enough gets a part of a free block of least
      sufficient size: the part begins where that block began, is large enough, is of the least
      size or less than twice the request, overlaps no earlier interval, and leaves them all as
      they were. */
  lemma AllocBestFit(bs: seq<Block>, size: int, value: char)
    requires Tiling(bs) && 0 <= size <= MEMORY && exists j :: Fits(bs, size, j)
    ensures var k, r := FindFree(bs, size), Alloc(bs, size, value);
            && Fits(bs, size, k) && (forall j :: Fits(bs, size, j) ==> bs[k].size <= bs[j].size)
            && k < |r| && r[k].inUse && r[k].used == size && r[k].value == value && r[k].wasted == r[k].size - size
            && Offset(r, k) == Offset(bs, k)
            && r[k].size >= size && (r[k].size == MIN_BLOCK || r[k].size < 2 * size)
            && Allocated(r) == Allocated(bs) + {(Offset(bs, k), r[k].size, size, value)}
            && forall x :: x in Allocated(bs) ==> Apart(x, Offset(bs, k), r[k].size)
  {
    hide Tiling, SplitDown, Offset, Log2;
    TilingBounded(bs);
    FindsBestFit(bs, size);
    var k := FindFree(bs, size);
    var split := SplitDown(bs, k, size);
    SplitDownNarrows(bs, k, size);
    TakeAllocated(split, k, size, value);
    TakeOffsets(split, k, Taken(split[k], size, value), k);
    forall x | x in Allocated(bs)
      ensures Apart(x, Offset(bs, k), split[k].size)
    {
      var i :| 0 <= i < |bs| && bs[i].inUse && x == (Offset(bs, i), bs[i].size, bs[i].used, bs[i].value);
      if i < k {
        OffsetsApart(bs, i, k);
      } else {
        OffsetsApart(bs, k, i);
      }
    }
  }

  /** When no free block is large enough, the allocator takes the head all the same: the block it
      takes is free and large enough exactly when some free block is large enough. */
  lemma AllocSafeIffFits(bs: seq<Block>, size: int, value: char)
    requires Tiling(bs) && 0 <= size <= MEMORY
    ensures var k, r := FindFree(bs, size), Alloc(bs, size, value);
            && k < |bs| && k < |r|
            && ((!bs[k].inUse && r[k].size >= size) <==> exists j :: Fits(bs, size, j))
  {
    hide Tiling, SplitDown, Offset, Log2;
    TilingSize(bs);
    TilingBounded(bs);
    FindsBestFit(bs, size);
    var k := FindFree(bs, size);
    SplitDownNarrows(bs, k, size);
    assert Fits(bs, size, k) <==> !bs[k].inUse && bs[k].size >= size;
  }

  // ----- sequences of requests -----

  function AllocAll(bs: seq<Block>, requests: seq<(int, char)>): (r: seq<Block>)
    requires bs != []
    ensures r != []
    decreases |requests|
  {
    if requests == [] then bs
    else AllocAll(Alloc(bs, requests[0].0, requests[0].1), requests[1..])
  }

  lemma InitialTiling()
    ensures Tiling(Initial())
  {
    Powers();
    var bs := Initial();
    assert Offset(bs, 0) == 0 && Offset(bs, 1) == MEMORY;
    assert Times(0, MEMORY) == 0;
  }

  /** Over any sequence of requests the blocks tile the memory. */
  lemma {:induction false} AllocAllTiles(bs: seq<Block>, requests: seq<(int, char)>)
    requires Tiling(bs)
    ensures Tiling(AllocAll(bs, requests))
    decreases |requests|
  {
    TilingSize(bs);
    hide Tiling;
    if requests != [] {
      AllocTiles(bs, requests[0].0, requests[0].1);
      AllocAllTiles(Alloc(bs, requests[0].0, requests[0].1), requests[1..]);
    }
  }

  predicate InRange(request: (int, char)) {
    0 <= request.0 <= MEMORY
  }

  /** A request for more than the memory, or for a negative amount, changes nothing at all. */
  lemma OutOfRange(bs: seq<Block>, size: int, value: char)
    requires bs != [] && !InRange((size, value))
    ensures Alloc(bs, size, value) == bs
  {
  }

  function Meetable(requests: seq<(int, char)>): (r: seq<(int, char)>) {
    if requests == [] then [] else
      (if InRange(requests[0]) then [requests[0]] else []) + Meetable(requests[1..])
  }

  /** Leaving such requests out makes no difference. */
  lemma {:induction false} OnlyMeetable(bs: seq<Block>, requests: seq<(int, char)>)
    requires bs != []
    ensures AllocAll(bs, requests) == AllocAll(bs, Meetable(requests))
    decreases |requests|
  {
    if requests != [] {
      var (size, value) := requests[0];
      var next, rest := Alloc(bs, size, value), Meetable(requests[1..]);
      OnlyMeetable(next, requests[1..]);
      if InRange(requests[0]) {
        assert ([requests[0]] + rest)[1..] == rest;
      } else {
        OutOfRange(bs, size, value);
        assert Meetable(requests) == rest;
      }
    }
  }

  /** Each request finds a free block that is large enough when its turn comes, unless it is out of range. */
  ghost predicate AllFit(bs: seq<Block>, requests: seq<(int, char)>)
    requires bs != []
    decreases |requests|
  {
    requests == []
    || ((InRange(requests[0]) ==> exists j :: Fits(bs, requests[0].0, j))
        && AllFit(Alloc(bs, requests[0].0, requests[0].1), requests[1..]))
  }

  type Interval = (int, int, int, char)

  predicate Separate(x: Interval, y: Interval) {
    x.1 > 0 && y.1 > 0 && Apart(x, y.0, y.1)
  }

  /** One interval per request, in order: large enough, none overlapping another. */
  ghost predicate OneEach(requests: seq<(int, char)>, xs: seq<Interval>) {
    && |xs| == |requests|
    && (forall i :: 0 <= i < |xs| ==> (xs[i].2, xs[i].3) == requests[i] && xs[i].1 >= xs[i].2)
    && (forall i, j :: 0 <= i < j < |xs| ==> Separate(xs[i], xs[j]))
  }

  /** Then each request in range gets an interval of its own, apart from all others and from those
      handed out before, and at the end exactly the old and the new intervals are in use. */
  lemma {:induction false} AllocAllKeeps(bs: seq<Block>, requests: seq<(int, char)>) returns (xs: seq<Interval>)
    requires Tiling(bs) && bs != [] && AllFit(bs, requests)
    ensures OneEach(Meetable(requests), xs)
    ensures forall x, i :: x in Allocated(bs) && 0 <= i < |xs| ==> Separate(x, xs[i])
    ensures forall x :: x in Allocated(AllocAll(bs, requests)) <==> x in Allocated(bs) || x in xs
    decreases |requests|
  {
    hide Tiling, Allocated, Alloc, FindFree, Fits, Offset, Separate;
    if requests == [] {
      xs := [];
    } else {
      var (size, value) := requests[0];
      AllocTiles(bs, size, value);
      var ys := AllocAllKeeps(Alloc(bs, size, value), requests[1..]);
      if InRange(requests[0]) {
        var x := Handed(bs, size, value);
        xs := [x] + ys;
      } else {
        OutOfRange(bs, size, value);
        xs := ys;
      }
    }
  }

  /** The one interval that a request for which there is room adds. */
  lemma Handed(bs: seq<Block>, size: int, value: char) returns (x: Interval)
    requires Tiling(bs) && bs != [] && 0 <= size <= MEMORY && exists j :: Fits(bs, size, j)
    ensures (x.2, x.3) == (size, value) && x.1 >= size
    ensures Allocated(Alloc(bs, size, value)) == Allocated(bs) + {x}
    ensures forall y :: y in Allocated(bs) ==> Separate(y, x)
  {
    AllocBestFit(bs, size, value);
    AllocatedPositive(bs);
    hide Tiling, Allocated, Alloc, FindFree, Fits, Offset;
    x := (Offset(bs, FindFree(bs, size)), Alloc(bs, size, value)[FindFree(bs, size)].size, size, value);
  }

  lemma AllocatedPositive(bs: seq<Block>)
    requires Tiling(bs)
    ensures forall y :: y in Allocated(bs) ==> y.1 > 0
  {
    TilingBounded(bs);
    hide Tiling, Offset;
  }

  // ----- what is left free -----

  /** `r` is `bs` with block `k` cut down to its first part and `m` free blocks behind it, which double
      in size and make up the rest of what block `k` was; all other blocks are the same. */
  ghost predicate CutDown(bs: seq<Block>, k: nat, r: seq<Block>, m: nat) {
    && k < |bs| && |r| == |bs| + m
    && r[k].size * Pow2(m) == bs[k].size && r[k].order + m == bs[k].order
    && (forall i :: 0 <= i < k ==> r[i] == bs[i])
    && (forall j :: 0 <= j < m ==> r[k + 1 + j] == Chip(r[k].size * Pow2(j), r[k].order + j))
    && (forall i :: k < i < |bs| ==> r[i + m] == bs[i])
  }

  function Chip(size: int, order: int): Block {
    Block(size, false, 0, order, 'N', 0, false)
  }

  /** The first part is the same block but for its size, its order and, if it was cut, its counters. */
  ghost predicate CutBlock(b: Block, x: Block, m: nat) {
    && x.inUse == b.inUse && x.value == b.value && x.isHead == b.isHead
    && if m == 0 then x == b else x.used == x.wasted == 0
  }

  lemma {:induction false} SplitDownCuts(bs: seq<Block>, k: nat, size: int) returns (m: nat)
    requires k < |bs| && Tiling(bs)
    ensures var r := SplitDown(bs, k, size); CutDown(bs, k, r, m) && CutBlock(bs[k], r[k], m)
    decreases if bs[k].size < 0 then 0 else bs[k].size
  {
    m := 0;
    if bs[k].size / 2 >= size && bs[k].size / 2 >= MIN_BLOCK {
      var next := Split(bs, k);
      assert AlignedAt(bs, k);
      LargeOrder(bs[k], Offset(bs, k));
      SplitTiling(bs, k);
      SplitIndex(bs, k, k);
      SplitIndex(bs, k, k + 1);
      m := SplitDownCuts(next, k, size);
      hide Tiling, AlignedAt, SplitDown;
      OneMoreCut(bs, k, SplitDown(next, k, size), m);
      m := m + 1;
    }
  }

  /** Halving before cutting down is cutting down once more. */
  lemma OneMoreCut(bs: seq<Block>, k: nat, r: seq<Block>, m: nat)
    requires k < |bs| && bs[k].size % 2 == 0 && CutDown(Split(bs, k), k, r, m)
    ensures CutDown(bs, k, r, m + 1)
  {
    var next := Split(bs, k);
    SplitIndex(bs, k, k);
    SplitIndex(bs, k, k + 1);
    assert r[k].size * Pow2(m + 1) == 2 * (r[k].size * Pow2(m)) by {
      DoubleTimes(r[k].size, Pow2(m));
    }
    forall i | 0 <= i < |bs|
      ensures i < k ==> r[i] == bs[i]
      ensures i > k ==> r[i + (m + 1)] == bs[i]
    {
      SplitIndex(bs, k, i);
      SplitIndex(bs, k, i + 1);
      assert i > k ==> r[(i + 1) + m] == next[i + 1];
    }
    assert r[k + 1 + m] == next[k + 1];
    hide Split;
  }

  lemma DoubleTimes(x: int, y: int)
    ensures x * (2 * y) == 2 * (x * y)
  {
  }

  /** Where the parts lie: each free one begins as far behind the beginning as it is long, and the
      blocks behind block `k` are where they were. */
  function CutOffset(bs: seq<Block>, k: nat, r: seq<Block>, m: nat, j: nat): int
    requires k < |bs| && |r| == |bs| + m && j <= |r|
  {
    if j <= k then Offset(bs, j)
    else if j <= k + m then Offset(bs, k) + r[k].size * Pow2(j - k - 1)
    else Offset(bs, j - m)
  }

  lemma {:induction false} CutOffsets(bs: seq<Block>, k: nat, r: seq<Block>, m: nat, j: nat)
    requires CutDown(bs, k, r, m) && j <= |r|
    ensures Offset(r, j) == CutOffset(bs, k, r, m, j)
  {
    if j > 0 {
      CutOffsets(bs, k, r, m, j - 1);
      if j == k + 1 {
        assert Pow2(0) == 1;
      } else if k + 1 < j <= k + m + 1 {
        var e := j - k - 2;
        assert r[j - 1] == r[k + 1 + e];
        DoubleTimes(r[k].size, Pow2(e));
      } else if j > k + m + 1 {
        assert r[j - 1] == bs[j - 1 - m];
      }
    }
  }

  /** A request in range, whether it fits or not, cuts one block down: the first part is given to the
      request, one free block of each doubling of its size up to half of the former block lies behind
      it, and no other block is touched or moved. */
  lemma AllocCuts(bs: seq<Block>, size: int, value: char) returns (m: nat)
    requires Tiling(bs) && 0 <= size <= MEMORY
    ensures var k, r := FindFree(bs, size), Alloc(bs, size, value);
            && CutDown(bs, k, r, m)
            && r[k] == Block(r[k].size, true, size, bs[k].order - m, value, r[k].size - size, bs[k].isHead)
    ensures forall j :: 0 <= j <= |Alloc(bs, size, value)| ==>
              Offset(Alloc(bs, size, value), j) == CutOffset(bs, FindFree(bs, size), Alloc(bs, size, value), m, j)
  {
    hide Log2, CutDown, Offset, Tiling, SplitDown, FindFree;
    TilingSize(bs);
    TilingBounded(bs);
    FindsBestFit(bs, size);
    var k, r := FindFree(bs, size), Alloc(bs, size, value);
    m := SplitDownCuts(bs, k, size);
    var split := SplitDown(bs, k, size);
    CutSizes(bs, k, split, m);
    SplitDownNarrows(bs, k, size);
    OrderIsLog(split, k);
    CutTaken(bs, k, split, m, Taken(split[k], size, value));
    assert r == split[k := Taken(split[k], size, value)];
    CutSizes(bs, k, r, m);
    forall j | 0 <= j <= |r|
      ensures Offset(r, j) == CutOffset(bs, k, r, m, j)
    {
      CutOffsets(bs, k, r, m, j);
    }
  }

  lemma CutSizes(bs: seq<Block>, k: nat, r: seq<Block>, m: nat)
    requires CutDown(bs, k, r, m)
    ensures k < |bs| && |r| == |bs| + m && r[k].order + m == bs[k].order
  {
  }

  lemma CutTaken(bs: seq<Block>, k: nat, r: seq<Block>, m: nat, x: Block)
    requires CutDown(bs, k, r, m) && x.size == r[k].size && x.order == r[k].order
    ensures CutDown(bs, k, r[k := x], m)
  {
  }

  lemma OrderIsLog(bs: seq<Block>, k: nat)
    requires Tiling(bs) && k < |bs|
    ensures Log2(bs[k].size) == bs[k].order
  {
    assert AlignedAt(bs, k);
    LogOfPower(bs[k].order);
  }

  /** No two free blocks have the same size. */
  ghost predicate FreeDiffer(bs: seq<Block>) {
    forall i, j :: 0 <= i < j < |bs| && !bs[i].inUse && !bs[j].inUse ==> bs[i].size != bs[j].size
  }

  lemma {:induction false} PowerGrows(a: nat, b: nat)
    requires a < b
    ensures Pow2(a) < Pow2(b)
  {
    if a + 1 < b {
      PowerGrows(a, b - 1);
    }
  }

  lemma TimesGrows(s: int, x: int, y: int)
    requires s > 0 && x < y
    ensures s * x < s * y
  {
  }

  /** The sizes of the new free blocks: at least that of the first part, less than the former block,
      and all different. */
  lemma ChipSizes(s: int, m: nat, i: nat, j: nat)
    requires s > 0 && i < j <= m
    ensures s <= s * Pow2(i) < s * Pow2(j) <= s * Pow2(m)
  {
    PowerGrows(i, j);
    TimesGrows(s, Pow2(i), Pow2(j));
    if i > 0 {
      PowerGrows(0, i);
      TimesGrows(s, 1, Pow2(i));
    }
    if j < m {
      PowerGrows(j, m);
      TimesGrows(s, Pow2(j), Pow2(m));
    }
  }

  /** A free block behind the cut is a new one, with a size from the first part's to half of the former
      block's, or an old one that was not cut. */
  lemma FreeOrigin(bs: seq<Block>, k: nat, r: seq<Block>, m: nat, i: nat) returns (o: int)
    requires CutDown(bs, k, r, m) && r[k].inUse && r[k].size > 0 && i < |r| && !r[i].inUse
    ensures if k < i <= k + m
            then o == -1 && r[i].size == r[k].size * Pow2(i - k - 1) && r[k].size <= r[i].size < bs[k].size
            else 0 <= o < |bs| && o != k && bs[o] == r[i] && o == if i < k then i else i - m
  {
    o := -1;
    if k < i <= k + m {
      assert r[i] == r[k + 1 + (i - k - 1)];
      ChipSizes(r[k].size, m, i - k - 1, m);
    } else {
      o := if i < k then i else i - m;
    }
  }

  /** Taking a least sufficient block keeps the sizes of the free blocks apart. */
  lemma CutKeepsApart(bs: seq<Block>, k: nat, r: seq<Block>, m: nat, size: int)
    requires FreeDiffer(bs) && CutDown(bs, k, r, m) && r[k].inUse && r[k].size > 0 && r[k].size >= size
    requires Fits(bs, size, k) && forall j :: Fits(bs, size, j) ==> bs[k].size <= bs[j].size
    ensures FreeDiffer(r)
  {
    forall i, j | 0 <= i < j < |r| && !r[i].inUse && !r[j].inUse
      ensures r[i].size != r[j].size
    {
      var a := FreeOrigin(bs, k, r, m, i);
      var b := FreeOrigin(bs, k, r, m, j);
      hide CutDown;
      if a == -1 && b == -1 {
        ChipSizes(r[k].size, m, i - k - 1, j - k - 1);
      } else if a == -1 {
        assert Fits(bs, size, b) || bs[b].size < size;
      } else if b == -1 {
        assert Fits(bs, size, a) || bs[a].size < size;
      }
    }
  }

  lemma AllocKeepsApart(bs: seq<Block>, size: int, value: char)
    requires Tiling(bs) && FreeDiffer(bs) && (InRange((size, value)) ==> exists j :: Fits(bs, size, j))
    ensures bs != [] && FreeDiffer(Alloc(bs, size, value))
  {
    TilingSize(bs);
    if InRange((size, value)) {
      var m := AllocCuts(bs, size, value);
      AllocBestFit(bs, size, value);
      AllocTiles(bs, size, value);
      TilingBounded(Alloc(bs, size, value));
      hide Tiling, Alloc, FindFree, FreeDiffer, CutDown, Offset, Allocated;
      CutKeepsApart(bs, FindFree(bs, size), Alloc(bs, size, value), m, size);
    } else {
      OutOfRange(bs, size, value);
    }
  }

  /** As long as requests fit, free memory is never in two blocks of the same size: it is as little
      fragmented as its amount allows. */
  lemma {:induction false} FreeSizesDiffer(bs: seq<Block>, requests: seq<(int, char)>)
    requires Tiling(bs) && bs != [] && FreeDiffer(bs) && AllFit(bs, requests)
    ensures FreeDiffer(AllocAll(bs, requests))
    decreases |requests|
  {
    hide Tiling, Alloc, Fits, FreeDiffer;
    if requests != [] {
      AllocKeepsApart(bs, requests[0].0, requests[0].1);
      AllocTiles(bs, requests[0].0, requests[0].1);
      FreeSizesDiffer(Alloc(bs, requests[0].0, requests[0].1), requests[1..]);
    }
  }

  lemma InitialApart()
    ensures FreeDiffer(Initial())
  {
  }

  // ----- requests for which there is no room -----

  /** Splitting leaves a free block behind the one that was split, which may be in use itself. */
  lemma {:induction false} SplitDownFrees(bs: seq<Block>, k: nat, size: int)
    requires k < |bs| && bs[k].size / 2 >= size && bs[k].size / 2 >= MIN_BLOCK
    ensures var r := SplitDown(bs, k, size); k + 1 < |r| && !r[k + 1].inUse && 0 < r[k].size <= bs[k].size / 2
    decreases bs[k].size
  {
    var next := Split(bs, k);
    SplitIndex(bs, k, k);
    SplitIndex(bs, k, k + 1);
    hide Split;
    if next[k].size / 2 >= size && next[k].size / 2 >= MIN_BLOCK {
      SplitDownFrees(next, k, size);
    }
  }

  function Everything(): seq<Block> {
    Alloc(Initial(), MEMORY, 'A')
  }

  lemma EverythingTaken()
    ensures Everything() == [Block(MEMORY, true, MEMORY, MAX_ORDER, 'A', 0, true)]
    ensures (0, MEMORY, MEMORY, 'A') in Allocated(Everything())
    ensures forall size, j :: !Fits(Everything(), size, j)
  {
    var bs := Initial();
    assert FindFree(bs, MEMORY) == 0;
    assert SplitDown(bs, 0, MEMORY) == bs;
    Powers();
    LogOfPower(20);
    hide Log2;
    assert Everything() == [Taken(bs[0], MEMORY, 'A')];
    assert Everything()[0].inUse && Offset(Everything(), 0) == 0;
  }

  /** Once the whole memory has been handed out, a second request for all of it is met with the
      same interval, which its first owner loses. */
  lemma HandedOutTwice()
    ensures Alloc(Everything(), MEMORY, 'B') == [Block(MEMORY, true, MEMORY, MAX_ORDER, 'B', 0, true)]
    ensures (0, MEMORY, MEMORY, 'A') in Allocated(Everything())
    ensures (0, MEMORY, MEMORY, 'A') !in Allocated(Alloc(Everything(), MEMORY, 'B'))
  {
    EverythingTaken();
    var bs := Everything();
    hide Everything, Log2;
    assert FindFree(bs, MEMORY) == 0;
    assert SplitDown(bs, 0, MEMORY) == bs;
    Powers();
    LogOfPower(20);
    assert Alloc(bs, MEMORY, 'B') == [Taken(bs[0], MEMORY, 'B')];
  }

  /** In any state without room, a request for at most half of the head splits the head, which is in
      use: its beginning changes hands, and a later part of it is marked free. */
  lemma UsedHeadSplit(bs: seq<Block>, size: int, value: char)
    requires Tiling(bs) && size >= 0 && forall j :: !Fits(bs, size, j)
    requires bs[0].size / 2 >= size && bs[0].size / 2 >= MIN_BLOCK
    ensures var r := Alloc(bs, size, value);
            && bs[0].inUse
            && |r| >= 2 && r[0].inUse && r[0].value == value && !r[1].inUse && 0 < Offset(r, 1) < bs[0].size
  {
    TilingBounded(bs);
    FindsBestFit(bs, size);
    assert !Fits(bs, size, 0);
    SplitDownFrees(bs, 0, size);
    hide SplitDown, Tiling, Log2, FindFree;
    assert Offset(Alloc(bs, size, value), 1) == Alloc(bs, size, value)[0].size;
  }

  /** Such states can be reached: with the whole memory handed out, any request for at most half of
      it marks memory free that its owner has not given back. */
  lemma UsedBlockSplit(size: int)
    requires 0 <= size <= MEMORY / 2
    ensures var r := Alloc(Everything(), size, 'B');
            && (0, MEMORY, MEMORY, 'A') in Allocated(Everything())
            && |r| >= 2 && r[0].inUse && r[0].value == 'B' && !r[1].inUse && 0 < Offset(r, 1) < MEMORY
  {
    EverythingTaken();
    InitialTiling();
    AllocTiles(Initial(), MEMORY, 'A');
    hide Everything, Tiling, Allocated, Alloc, Fits;
    UsedHeadSplit(Everything(), size, 'B');
  }
}
