/** The splitting allocator on its linked list of blocks. */
module Buddy {
  import opened BuddySpec
  import QueueSpec

  class MemBlock {
    var next: MemBlock?
    var inUse: bool
    var used: int
    var size: int
    var order: int
    var value: char
    var wasted: int
    var isHead: bool

    constructor (size: int, order: int, isHead: bool, next: MemBlock?)
      ensures Value() == Block(size, false, 0, order, 'N', 0, isHead) && this.next == next
    {
      inUse, used, value, wasted := false, 0, 'N', 0;
      this.size, this.order, this.isHead, this.next := size, order, isHead, next;
    }

    function Value(): Block
      reads this
    {
      Block(size, inUse, used, order, value, wasted, isHead)
    }

    /** Shrinks to the left half, with `right` as the next block. */
    method Halve(right: MemBlock)
      modifies this
      ensures Value() == LeftHalf(old(Value())) && next == right
    {
      order := order - 1;
      next := right;
      size := size / 2;
      wasted := 0;
      used := 0;
    }

    /** `set_block_order`. */
    method SetOrder()
      modifies this`order
      ensures order == Log2(size)
    {
      var o := 0;
      var s := size;
      while s / 2 >= 1
        invariant o >= 0 && Log2(size) == o + Log2(s)
        decreases s
      {
        o := o + 1;
        s := s / 2;
      }
      order := o;
    }

    /** Records that the block has been given to a request. */
    method Give(request: int, val: char)
      modifies this
      ensures Value() == Taken(old(Value()), request, val) && next == old(next)
    {
      hide Log2;
      inUse := true;
      value := val;
      wasted := size - request;
      used := request;
      SetOrder();
    }
  }

  ghost function Values(blocks: seq<MemBlock>): (v: seq<Block>)
    reads blocks
    ensures |v| == |blocks|
    ensures forall i :: 0 <= i < |blocks| ==> v[i] == blocks[i].Value()
  {
    seq(|blocks|, i requires 0 <= i < |blocks| reads blocks => blocks[i].Value())
  }

  ghost function BlockAt(blocks: seq<MemBlock>, i: int): MemBlock? {
    if 0 <= i < |blocks| then blocks[i] else null
  }

  /** Block `i` leads to `b` if it is block `k`, and otherwise to the next one. */
  ghost predicate LinkAt(blocks: seq<MemBlock>, i: int, k: int, b: MemBlock?)
    requires 0 <= i < |blocks|
    reads blocks
  {
    blocks[i].next == if i == k then b else BlockAt(blocks, i + 1)
  }

  ghost predicate Linked(blocks: seq<MemBlock>)
    reads blocks
  {
    QueueSpec.Different(blocks) && forall i :: 0 <= i < |blocks| ==> LinkAt(blocks, i, -1, null)
  }

  /** A new block linked in after block `k`. */
  lemma InsertLinked(blocks: seq<MemBlock>, k: nat, b: MemBlock)
    requires k < |blocks| && QueueSpec.Different(blocks) && b !in blocks && b.next == BlockAt(blocks, k + 1)
    requires forall i :: 0 <= i < |blocks| ==> LinkAt(blocks, i, k, b)
    ensures Linked(Grown(blocks, k, b))
  {
    var r := Grown(blocks, k, b);
    forall i | 0 <= i < |r|
      ensures LinkAt(r, i, -1, null)
    {
      if i != k + 1 {
        assert LinkAt(blocks, if i <= k then i else i - 1, k, b);
      }
    }
  }

  function Grown(blocks: seq<MemBlock>, k: nat, b: MemBlock): seq<MemBlock>
    requires k < |blocks|
  {
    blocks[..k + 1] + [b] + blocks[k + 1..]
  }

  lemma GrownMembers(blocks: seq<MemBlock>, k: nat, b: MemBlock)
    requires k < |blocks|
    ensures var r := Grown(blocks, k, b);
            && |r| == |blocks| + 1 && r[0] == blocks[0] && r[k] == blocks[k]
            && forall i :: 0 <= i < |r| ==> r[i] == b || r[i] in blocks
  {
  }

  lemma GrownValues(blocks: seq<MemBlock>, k: nat, b: MemBlock, vals: seq<Block>)
    requires k < |blocks| == |vals|
    requires forall i :: 0 <= i < |blocks| ==> blocks[i].Value() == if i == k then LeftHalf(vals[k]) else vals[i]
    requires b.Value() == RightHalf(vals[k])
    ensures Values(Grown(blocks, k, b)) == Split(vals, k)
  {
  }

  lemma HalfValue(r: Block, b: Block)
    requires r == Block(b.size / 2, false, 0, b.order - 1, 'N', 0, false)
    ensures r == RightHalf(b)
  {
  }

  class MemList {
    var head: MemBlock
    const freeMemory: int
    var listSize: int
    ghost var blocks: seq<MemBlock>

    ghost predicate Valid()
      reads this, blocks
    {
      && |blocks| >= 1 && head == blocks[0] && listSize == |blocks|
      && Linked(blocks) && freeMemory == MEMORY
    }

    ghost function View(): (v: seq<Block>)
      reads this, blocks
      ensures |v| == |blocks|
    {
      Values(blocks)
    }

    /** `buddy_init`: one free block for the whole memory. */
    constructor ()
      ensures Valid() && View() == Initial() && Tiling(View()) && fresh(blocks)
    {
      head := new MemBlock(MEMORY, MAX_ORDER, true, null);
      freeMemory := MEMORY;
      listSize := 1;
      blocks := [head];
      InitialTiling();
    }

    /** `split_block`: null when the block cannot be split, otherwise the left half. */
    method SplitBlock(b: MemBlock, ghost k: nat) returns (left: MemBlock?)
      requires Valid() && k < |blocks| && blocks[k] == b
      modifies this, b
      ensures Valid() && left == if old(b.size) == MIN_BLOCK then null else b
      ensures forall i :: 0 <= i < |blocks| ==> blocks[i] in old(blocks) || fresh(blocks[i])
      ensures k < |blocks| && blocks[k] == b
      ensures View() == if old(b.size) == MIN_BLOCK then old(View()) else Split(old(View()), k)
    {
      hide Grown, Values, Split, QueueSpec.Different, LeftHalf, RightHalf;
      QueueSpec.OthersDiffer(blocks, k);
      if b.size == MIN_BLOCK {
        return null;
      }
      ghost var vals := Values(blocks);
      assert LinkAt(blocks, k, -1, null);
      var right := new MemBlock(b.size / 2, b.order - 1, false, b.next);
      HalfValue(right.Value(), vals[k]);
      b.Halve(right);
      listSize := listSize + 1;
      ghost var before := blocks;
      blocks := Grown(blocks, k, right);
      forall i | 0 <= i < |before|
        ensures LinkAt(before, i, k, right)
      {
        assert old(LinkAt(blocks, i, -1, null));
      }
      InsertLinked(before, k, right);
      GrownMembers(before, k, right);
      GrownValues(before, k, right, vals);
      left := b;
    }

    /** `find_free_block`: the closest fit in one walk over the list. */
    method FindFreeBlock(size: int) returns (b: MemBlock, ghost k: nat)
      requires Valid()
      ensures FindFree(View(), size) < |blocks| && b == blocks[FindFree(View(), size)]
      ensures k == FindFree(View(), size)
    {
      var current: MemBlock? := head;
      var closest := head;
      var closestBlockSize := MEMORY;
      k := 0;
      ghost var i := 0;
      while current != null
        invariant 0 <= i <= |blocks| && current == BlockAt(blocks, i)
        invariant k < |blocks| && closest == blocks[k]
        invariant FindFree(View(), size) == Scan(View(), size, i, k, closestBlockSize)
        decreases |blocks| - i
      {
        if !current.inUse {
          if current.size == size {
            return current, i;
          } else if current.size >= size && current.size <= closestBlockSize {
            closestBlockSize := current.size;
            closest := current;
            k := i;
          }
        }
        assert LinkAt(blocks, i, -1, null);
        current := current.next;
        i := i + 1;
      }
      b := closest;
    }

    /** The splitting loop of `buddy_alloc`, down to a block that just fits. */
    method SplitFor(b: MemBlock, size: int, ghost k: nat) returns (left: MemBlock)
      requires Valid() && Tiling(View()) && k < |blocks| && blocks[k] == b
      modifies this, blocks
      ensures Valid() && left == b && k < |blocks| && blocks[k] == b
      ensures forall i :: 0 <= i < |blocks| ==> blocks[i] in old(blocks) || fresh(blocks[i])
      ensures View() == SplitDown(old(View()), k, size)
    {
      hide Values, Linked, Split, Tiling;
      left := b;
      while left.size / 2 >= size && left.size / 2 >= MIN_BLOCK
        invariant Valid() && Tiling(View()) && left == b && k < |blocks| && blocks[k] == b
        invariant forall i :: 0 <= i < |blocks| ==> blocks[i] in old(blocks) || fresh(blocks[i])
        invariant SplitDown(View(), k, size) == SplitDown(old(View()), k, size)
        decreases if left.size < 0 then 0 else left.size
      {
        SplitTiling(View(), k);
        SplitIndexAt(View(), k);
        left := SplitBlock(left, k);
      }
    }

    lemma SplitIndexAt(bs: seq<Block>, k: nat)
      requires k < |bs|
      ensures k < |Split(bs, k)| && Split(bs, k)[k] == LeftHalf(bs[k])
    {
    }

    /** Marks block `k` as given to the request. */
    method Take(b: MemBlock, size: int, value: char, ghost k: nat)
      requires Valid() && k < |blocks| && blocks[k] == b
      modifies b
      ensures Valid() && View() == old(View())[k := Taken(old(View())[k], size, value)]
    {
      hide Taken, Values, QueueSpec.Different;
      QueueSpec.OthersDiffer(blocks, k);
      ghost var vals := Values(blocks);
      b.Give(size, value);
      forall i | 0 <= i < |blocks|
        ensures LinkAt(blocks, i, -1, null)
      {
        assert old(LinkAt(blocks, i, -1, null));
      }
      assert Values(blocks) == vals[k := Taken(vals[k], size, value)];
    }

    /** `buddy_alloc`. */
    method BuddyAlloc(size: int, value: char)
      requires Valid() && Tiling(View())
      modifies this, blocks
      ensures Valid() && Tiling(View())
      ensures forall i :: 0 <= i < |blocks| ==> blocks[i] in old(blocks) || fresh(blocks[i])
      ensures View() == Alloc(old(View()), size, value)
    {
      hide Values, Linked, SplitDown, FindFree, Tiling, Log2;
      AllocTiles(View(), size, value);
      if size < 0 || size > freeMemory {
        return;
      }
      ghost var k;
      var left;
      left, k := FindFreeBlock(size);
      left := SplitFor(left, size, k);
      Take(left, size, value, k);
    }
  }
}
