/** mm/mm.c over the kernel's sbrk (mm/memory.c): the allocator as it runs, on raw bytes. */
module Heap {
  import opened Bytes
  import opened HeapBlocks
  import opened HeapMemory

  const NULL := 0
  const U64 := 0x1_0000_0000_0000_0000
  const SBRK_FAILED := U64 - 1
  const MISMATCH: nat := U64 - 1
  const MEM_POOL_SIZE := 0x2000_0000
  // PAGE_OFFSET + RAM_ADDR_START + 256M
  const MEM_POOL_START := 0xFFFF_FFC0_0000_0000 + 0x4000_0000 + 0x1000_0000

  class MemPool {
    /** The memory region reserved for the pool: byte `k` is at address MEM_POOL_START + k. */
    const mem: array<Byte>
    // kernel_mock_sbrk's static variables
    var last: nat
    var allocatedSize: nat
    // struct mem_pool
    var start: nat
    var end: nat
    var totalLength: nat
    /** The blocks the bytes stand for. */
    ghost var blocks: seq<Block>

    ghost predicate Bounds()
      reads this
    {
      && mem.Length == MEM_POOL_SIZE
      && start == MEM_POOL_START <= end <= start + MEM_POOL_SIZE
      && last == end && allocatedSize == end - start
    }

    /** The bytes of the pool are the image of `blocks`, which tile it. */
    ghost predicate Linked()
      reads this, mem
    {
      && Bounds()
      && Tiles(blocks, start, end)
      && AllStored(mem[..], start, blocks)
    }

    /** What holds between calls. */
    ghost predicate Valid()
      reads this, mem
    {
      && Linked()
      && WellFormed(blocks, start, end)
      && totalLength == TotalUser(blocks)
    }

    /** A load of `n` bytes at address `p`. */
    function Field(p: nat, n: nat): nat
      requires MEM_POOL_START <= p && p + n <= MEM_POOL_START + mem.Length
      reads mem
    {
      Load(mem[..], p - MEM_POOL_START, n)
    }

    method Store(p: nat, n: nat, v: nat)
      requires MEM_POOL_START <= p && p + n <= MEM_POOL_START + mem.Length
      requires v < Pow256(n)
      modifies mem
      ensures Field(p, n) == v
      ensures SameOutside(old(mem[..]), mem[..], p - MEM_POOL_START, p + n - MEM_POOL_START)
    {
      var bytes := Encode(v, n);
      var o := p - MEM_POOL_START;
      for k := 0 to n
        invariant forall j :: 0 <= j < k ==> mem[o + j] == bytes[j]
        invariant forall j :: 0 <= j < mem.Length && !(o <= j < o + n) ==> mem[j] == old(mem[j])
      {
        mem[o + k] := bytes[k];
      }
      assert mem[..][o..o + n] == bytes;
      DecodeEncode(v, n);
    }

    method Zero(p: nat, size: nat)
      requires MEM_POOL_START <= p && p + size <= MEM_POOL_START + mem.Length
      modifies mem
      ensures forall j :: p - MEM_POOL_START <= j < p + size - MEM_POOL_START ==> mem[j] == 0
      ensures SameOutside(old(mem[..]), mem[..], p - MEM_POOL_START, p + size - MEM_POOL_START)
    {
      var o := p - MEM_POOL_START;
      for i := 0 to size
        invariant forall j :: o <= j < o + i ==> mem[j] == 0
        invariant forall j :: 0 <= j < mem.Length && !(o <= j < o + size) ==> mem[j] == old(mem[j])
      {
        mem[o + i] := 0;
      }
    }

    method InitFreeBlk(p: nat, size: nat)
      requires MEM_POOL_START <= p && p + size <= MEM_POOL_START + mem.Length && mem.Length <= MEM_POOL_SIZE
      requires size >= OVERHEAD
      modifies mem
      ensures Stored(mem[..], MEM_POOL_START, FreeBlock(p, size))
      ensures SameOutside(old(mem[..]), mem[..], p - MEM_POOL_START, p + size - MEM_POOL_START)
    {
      hide SameOutside, Load, Stored;
      Pow256Values();
      ghost var m := mem[..];
      Zero(p, size);
      ghost var m0 := mem[..];
      Store(p + MAGIC_NUM, 4, MAGIC);
      ghost var m1 := mem[..];
      Store(p + IN_USE, 4, 0);
      ghost var m2 := mem[..];
      Store(p + BLK_LEN, 8, size);
      ghost var m3 := mem[..];
      var tail := p + Field(p + BLK_LEN, 8) - TAIL;
      Store(tail, 8, p);
      ghost var m4 := mem[..];
      FreshlyStored(m0, m1, m2, m3, m4, p, size);
      WithinFresh(m, m0, m1, m2, m3, m4, p - MEM_POOL_START, size);
    }

    static lemma WithinFresh(m: seq<Byte>, m0: seq<Byte>, m1: seq<Byte>, m2: seq<Byte>, m3: seq<Byte>, m4: seq<Byte>,
            o: nat, size: nat)
      requires size >= OVERHEAD && SameOutside(m, m0, o, o + size) && SameOutside(m0, m1, o, o + 4) && SameOutside(m1, m2, o + 4, o + 8)
      requires SameOutside(m2, m3, o + 8, o + 16) && SameOutside(m3, m4, o + size - 8, o + size)
      ensures SameOutside(m, m4, o, o + size)
    {
    }

    /** The zeroing and the four stores of init_free_blk leave a stored free block. */
    static lemma FreshlyStored(m0: seq<Byte>, m1: seq<Byte>, m2: seq<Byte>, m3: seq<Byte>, m4: seq<Byte>, p: nat,
            size: nat)
      requires MEM_POOL_START <= p && p + size <= MEM_POOL_START + |m0| && size >= OVERHEAD
      requires var o := p - MEM_POOL_START;
               && (forall k :: o <= k < o + size ==> m0[k] == 0)
               && SameOutside(m0, m1, o, o + 4) && Load(m1, o, 4) == MAGIC
               && SameOutside(m1, m2, o + 4, o + 8) && Load(m2, o + 4, 4) == 0
               && SameOutside(m2, m3, o + 8, o + 16) && Load(m3, o + 8, 8) == size
               && SameOutside(m3, m4, o + size - 8, o + size) && Load(m4, o + size - 8, 8) == p
      ensures Stored(m4, MEM_POOL_START, FreeBlock(p, size))
    {
      var o := p - MEM_POOL_START;
      StoresKept(m0, m1, m2, m3, m4, o, size);
      hide SameOutside;
      DecodeZeros(m0[o + USER_START..o + USER_START + 8]);
      DecodeZeros(m0[o + USER_LEN..o + USER_LEN + 8]);
      assert Load(m0, o + USER_START, 8) == 0 && Load(m0, o + USER_LEN, 8) == 0;
      hide Load, Stored;
      FreshFields(m4, p, size);
    }

    static lemma FreshFields(m: seq<Byte>, p: nat, size: nat)
      requires MEM_POOL_START <= p && p + size <= MEM_POOL_START + |m| && size >= OVERHEAD
      requires var o := p - MEM_POOL_START;
               && Load(m, o, 4) == MAGIC && Load(m, o + 4, 4) == 0 && Load(m, o + 8, 8) == size
               && Load(m, o + 16, 8) == 0 && Load(m, o + 24, 8) == 0 && Load(m, o + size - 8, 8) == p
               && forall k :: o + 32 <= k < o + size - 8 ==> m[k] == 0
      ensures Stored(m, MEM_POOL_START, FreeBlock(p, size))
    {
      hide Load;
      var o := p - MEM_POOL_START;
      assert m[o + HEADER..o + HEADER + (size - OVERHEAD)] == Zeros(size - OVERHEAD);
    }

    /** Each of the four stores of init_free_blk survives the later ones. */
    static lemma StoresKept(m0: seq<Byte>, m1: seq<Byte>, m2: seq<Byte>, m3: seq<Byte>, m4: seq<Byte>, o: nat, size: nat)
      requires size >= OVERHEAD && o + size <= |m0|
      requires SameOutside(m0, m1, o, o + 4) && SameOutside(m1, m2, o + 4, o + 8)
      requires SameOutside(m2, m3, o + 8, o + 16) && SameOutside(m3, m4, o + size - 8, o + size)
      ensures |m4| == |m0|
      ensures Load(m4, o, 4) == Load(m1, o, 4)
      ensures Load(m4, o + 4, 4) == Load(m2, o + 4, 4)
      ensures Load(m4, o + 8, 8) == Load(m3, o + 8, 8)
      ensures Load(m4, o + 16, 8) == Load(m0, o + 16, 8) && Load(m4, o + 24, 8) == Load(m0, o + 24, 8)
      ensures forall k :: o + 16 <= k < o + size - 8 ==> m4[k] == m0[k]
    {
      assert SameOutside(m0, m3, o, o + 16);
      LoadSame(m1, m2, o + 4, o + 8, o, 4);
      LoadSame(m2, m3, o + 8, o + 16, o, 4);
      LoadSame(m3, m4, o + size - 8, o + size, o, 4);
      LoadSame(m2, m3, o + 8, o + 16, o + 4, 4);
      LoadSame(m3, m4, o + size - 8, o + size, o + 4, 4);
      LoadSame(m3, m4, o + size - 8, o + size, o + 8, 8);
      LoadSame(m0, m3, o, o + 16, o + 16, 8);
      LoadSame(m3, m4, o + size - 8, o + size, o + 16, 8);
      LoadSame(m0, m3, o, o + 16, o + 24, 8);
      LoadSame(m3, m4, o + size - 8, o + size, o + 24, 8);
    }

    /** kernel_mock_sbrk. */
    method Sbrk(increment: int) returns (ret: nat)
      requires 0 <= allocatedSize <= last
      modifies this`last, this`allocatedSize
      ensures 0 <= old(allocatedSize) + increment <= MEM_POOL_SIZE ==>
                ret == old(last) && last == old(last) + increment && allocatedSize == old(allocatedSize) + increment
      ensures !(0 <= old(allocatedSize) + increment <= MEM_POOL_SIZE) ==>
                ret == SBRK_FAILED && last == old(last) && allocatedSize == old(allocatedSize)
    {
      if allocatedSize + increment >= 0 && allocatedSize + increment <= MEM_POOL_SIZE {
        ret := last;
        last := last + increment;
        allocatedSize := allocatedSize + increment;
      } else {
        ret := SBRK_FAILED;
      }
    }

    /** init_mm, with the kernel's sbrk at its first call: one free block of 40 bytes. */
    constructor (memory: array<Byte>)
      requires memory.Length == MEM_POOL_SIZE
      modifies memory
      ensures Valid() && mem == memory
      ensures blocks == [FreeBlock(MEM_POOL_START, OVERHEAD)] && totalLength == 0
    {
      mem := memory;
      last, allocatedSize := MEM_POOL_START, 0;
      start, end := 0, 0;
      totalLength := 0;
      blocks := [];
      new;
      hide Stored, SameOutside, WellFormed, TotalUser, Tiles, AllStored, FreeBlock;
      var initialBlkLen := HEADER + TAIL;
      var p := Sbrk(initialBlkLen);
      start := p;
      end := p + initialBlkLen;
      InitFreeBlk(start, initialBlkLen);
      blocks := [FreeBlock(start, initialBlkLen)];
      InitialWellFormed();
      OneStored(mem[..], start, FreeBlock(start, initialBlkLen));
    }

    static lemma OneStored(m: seq<Byte>, base: nat, b: Block)
      requires Stored(m, base, b)
      ensures AllStored(m, base, [b])
    {
    }

    static lemma InitialWellFormed()
      ensures var bs := [FreeBlock(MEM_POOL_START, OVERHEAD)];
              && WellFormed(bs, MEM_POOL_START, MEM_POOL_START + OVERHEAD) && TotalUser(bs) == 0
              && Tiles(bs, MEM_POOL_START, MEM_POOL_START + OVERHEAD)
    {
      TotalFree([FreeBlock(MEM_POOL_START, OVERHEAD)]);
    }

    method PrevMemBlk(p: nat, ghost i: nat) returns (r: nat)
      requires Linked() && i < |blocks| && p == blocks[i].addr
      ensures r == if i == 0 then NULL else blocks[i - 1].addr
    {
      TailBefore(mem[..], blocks, start, end, i);
      hide Tiles, AllStored, Load;
      var tail := p - TAIL;
      if tail < start {
        return NULL;
      }
      return Field(tail, 8);
    }

    static lemma StoredTail(m: seq<Byte>, lo: nat, b: Block)
      requires Stored(m, lo, b)
      ensures lo + TAIL <= b.End() <= lo + |m| && Load(m, b.End() - TAIL - lo, 8) == b.addr
    {
      hide Load;
      assert b.End() - TAIL - lo == b.addr - lo + b.Len() - TAIL;
    }

    /** The word before a header is the tail of the block before; before the first header there is no pool. */
    static lemma TailBefore(m: seq<Byte>, bs: seq<Block>, lo: nat, hi: nat, i: nat)
      requires Tiles(bs, lo, hi) && AllStored(m, lo, bs) && i < |bs|
      ensures i == 0 ==> bs[i].addr == lo
      ensures i > 0 ==> lo + TAIL <= bs[i].addr <= lo + |m| && Load(m, bs[i].addr - TAIL - lo, 8) == bs[i - 1].addr
    {
      hide Stored, Load;
      if i > 0 {
        var k := i - 1;
        assert bs[k].End() == bs[k + 1].addr;
        StoredIn(m, lo, bs, bs[k]);
        StoredTail(m, lo, bs[k]);
      }
    }

    method NextMemBlk(p: nat, ghost i: nat) returns (r: nat)
      requires Linked() && i < |blocks| && p == blocks[i].addr
      ensures r == if i + 1 == |blocks| then NULL else blocks[i + 1].addr
    {
      assert Stored(mem[..], start, blocks[i]);
      var header := p + Field(p + BLK_LEN, 8);
      if header >= end {
        assert i + 1 == |blocks| by { if i + 1 < |blocks| { BeforeEnd(blocks, start, end, i + 1); } }
        return NULL;
      }
      return header;
    }

    method BlkLen(p: nat, ghost i: nat) returns (len: nat)
      requires Linked() && i < |blocks| && p == blocks[i].addr
      ensures len == blocks[i].Len()
    {
      assert Stored(mem[..], start, blocks[i]);
      len := Field(p + BLK_LEN, 8);
    }

    method UserStart(p: nat, ghost i: nat) returns (u: nat)
      requires Linked() && i < |blocks| && p == blocks[i].addr
      ensures u == blocks[i].userStart
    {
      assert Stored(mem[..], start, blocks[i]);
      u := Field(p + USER_START, 8);
    }

    method IsBlkFree(p: nat, ghost i: nat) returns (r: bool)
      requires Linked() && i < |blocks| && p == blocks[i].addr
      ensures r == !blocks[i].inUse
    {
      assert Stored(mem[..], start, blocks[i]);
      r := Field(p + IN_USE, 4) == 0;
    }

    /** merge_free_blk's first loop: the start of the run of free blocks that ends at block `i`. */
    method MostPrev(free: nat, ghost i: nat) returns (mostPrev: nat)
      requires Linked() && i < |blocks| && free == blocks[i].addr && !blocks[i].inUse
      ensures mostPrev == blocks[RunStart(blocks, i)].addr
    {
      hide AllStored;
      ghost var l := RunStart(blocks, i);
      mostPrev := free;
      var p := free;
      ghost var k: int := i;
      while p != NULL
        invariant -1 <= k <= i
        invariant p == if k >= 0 then blocks[k].addr else NULL
        invariant k < i ==> mostPrev == blocks[k + 1].addr && RunStart(blocks, k + 1) == l
        invariant k == i ==> mostPrev == free
        decreases k
      {
        var isFree := IsBlkFree(p, k);
        if isFree {
          mostPrev := p;
        } else {
          break;
        }
        p := PrevMemBlk(p, k);
        k := k - 1;
      }
    }

    /** merge_free_blk's second loop: the last block of the run of free blocks that starts at block `i`. */
    method MostNext(free: nat, ghost i: nat) returns (mostNext: nat)
      requires Linked() && i < |blocks| && free == blocks[i].addr && !blocks[i].inUse
      ensures mostNext == blocks[RunEnd(blocks, i)].addr
    {
      hide AllStored;
      BeforeEnd(blocks, start, end, i);
      ghost var r := RunEnd(blocks, i);
      mostNext := free;
      var p := free;
      ghost var k := i;
      while p != NULL
        invariant i <= k <= |blocks|
        invariant p == if k < |blocks| then blocks[k].addr else NULL
        invariant k > i ==> mostNext == blocks[k - 1].addr && RunEnd(blocks, k - 1) == r
        invariant k == i ==> mostNext == free
        decreases |blocks| - k
      {
        var isFree := IsBlkFree(p, k);
        if isFree {
          mostNext := p;
        } else {
          break;
        }
        p := NextMemBlk(p, k);
        assert k + 1 < |blocks| ==> blocks[k].End() == blocks[k + 1].addr;
        k := k + 1;
      }
    }

    /** Merges the run of free blocks around block `i`. */
    method MergeFreeBlk(free: nat, ghost i: nat)
      requires Linked() && i < |blocks| && free == blocks[i].addr && !blocks[i].inUse
      modifies mem, this`blocks
      ensures Linked()
      ensures Spans(old(blocks), RunStart(old(blocks), i), RunEnd(old(blocks), i))
      ensures blocks == Coalesce(old(blocks), i)
    {
      hide Stored, SameOutside, Tiles, AllStored, RunStart, RunEnd, FreeBlock, Coalesce, Spans;
      RunInside(blocks, start, end, i);
      var mostPrev := MostPrev(free, i);
      var mostNext := MostNext(free, i);
      var len := BlkLen(mostNext, RunEnd(blocks, i));
      ghost var m := mem[..];
      InitFreeBlk(mostPrev, mostNext + len - mostPrev);
      CoalesceStored(m, mem[..], blocks, start, end, i);
      blocks := Coalesce(blocks, i);
    }

    static lemma RunInside(bs: seq<Block>, lo: nat, hi: nat, i: nat)
      requires Tiles(bs, lo, hi) && i < |bs|
      ensures RunStart(bs, i) <= i <= RunEnd(bs, i) < |bs| && Spans(bs, RunStart(bs, i), RunEnd(bs, i))
      ensures var l, r := RunStart(bs, i), RunEnd(bs, i); lo <= bs[l].addr && bs[l].addr + OVERHEAD <= bs[r].End() <= hi
    {
      ContiguousSpans(bs, RunStart(bs, i), RunEnd(bs, i));
      BeforeEnd(bs, lo, hi, RunEnd(bs, i));
      BeforeEnd(bs, lo, hi, RunStart(bs, i));
    }

    /** Writing a free block over the run around block `i` is the merge. */
    static lemma CoalesceStored(m: seq<Byte>, m': seq<Byte>, bs: seq<Block>, lo: nat, hi: nat, i: nat)
      requires Tiles(bs, lo, hi) && AllStored(m, lo, bs) && i < |bs| && Spans(bs, RunStart(bs, i), RunEnd(bs, i))
      requires lo <= bs[RunStart(bs, i)].addr
      requires SameOutside(m, m', bs[RunStart(bs, i)].addr - lo, bs[RunEnd(bs, i)].End() - lo)
      requires Stored(m', lo, FreeBlock(bs[RunStart(bs, i)].addr, bs[RunEnd(bs, i)].End() - bs[RunStart(bs, i)].addr))
      ensures AllStored(m', lo, Coalesce(bs, i)) && Tiles(Coalesce(bs, i), lo, hi)
    {
      hide Stored, SameOutside, RunStart, RunEnd, Contiguous;
      var l, r := RunStart(bs, i), RunEnd(bs, i);
      var b := FreeBlock(bs[l].addr, bs[r].End() - bs[l].addr);
      hide FreeBlock;
      OneStored(m', lo, b);
      ReplaceBlocks(m, m', lo, bs, l, r, [b]);
      MergedTiles(bs, lo, hi, l, r, b);
    }

    static lemma MergedTiles(bs: seq<Block>, lo: nat, hi: nat, l: nat, r: nat, b: Block)
      requires Tiles(bs, lo, hi) && l <= r < |bs|
      requires b.addr == bs[l].addr && b.End() == bs[r].End()
      ensures Tiles(bs[..l] + [b] + bs[r + 1..], lo, hi)
    {
      var rs := bs[..l] + [b] + bs[r + 1..];
      var d := r - l;
      assert forall k :: 0 <= k < l ==> rs[k] == bs[k];
      assert rs[l] == b;
      assert forall k :: l < k < |rs| ==> rs[k] == bs[k + d];
      forall k | 0 <= k < |rs| - 1 ensures rs[k].End() == rs[k + 1].addr {
        if k + 1 <= l {
          assert bs[k].End() == bs[k + 1].addr;
        } else {
          assert bs[k + d].End() == bs[k + d + 1].addr;
        }
      }
    }
  
    /** Doubles the pool, merging the new space with a free last block; refused beyond MEM_POOL_SIZE. */
    method EnlargeMemPool() returns (ok: bool)
      requires Valid()
      modifies mem, this`last, this`allocatedSize, this`end, this`blocks
      ensures Valid()
      ensures ok == (2 * (old(end) - start) <= MEM_POOL_SIZE)
      ensures ok ==> end == old(end) + (old(end) - start) && blocks == Grow(old(blocks))
      ensures !ok ==> end == old(end) && blocks == old(blocks) && mem[..] == old(mem[..])
    {
      hide Stored, SameOutside, Good, NoFreeNeighbours, TotalUser;
      GrowKeeps(blocks, start, end);
      TotalGrow(blocks);
      ExtendedSpans(blocks);
      var increment := end - start;
      var ret := Sbrk(increment);
      if ret == SBRK_FAILED {
        return false;
      }
      ghost var m, bs, hi := mem[..], blocks, end;
      end := end + increment;
      InitFreeBlk(ret, increment);
      ExtendedStored(m, mem[..], bs, start, hi);
      blocks := Extended(bs);
      MergeFreeBlk(ret, |bs|);
      return true;
    }

    static lemma ExtendedStored(m: seq<Byte>, m': seq<Byte>, bs: seq<Block>, lo: nat, hi: nat)
      requires Tiles(bs, lo, hi) && Spans(bs, 0, |bs| - 1) && AllStored(m, lo, bs)
      requires SameOutside(m, m', hi - lo, hi - lo + (hi - lo))
      requires Stored(m', lo, FreeBlock(hi, hi - lo))
      ensures AllStored(m', lo, Extended(bs)) && Tiles(Extended(bs), lo, hi + (hi - lo))
    {
      hide Stored, SameOutside;
      var es := Extended(bs);
      forall k | 0 <= k < |es| ensures Stored(m', lo, es[k]) {
        if k < |bs| {
          BeforeEnd(bs, lo, hi, k);
          assert Stored(m, lo, bs[k]);
          StoredSame(m, m', lo, hi - lo, hi - lo + (hi - lo), bs[k]);
        }
      }
      assert forall k :: 0 <= k < |es| - 1 ==> es[k].End() == es[k + 1].addr;
    }

    /** find_a_free_blk's loop: the lowest block that fits. */
    method Search(n: nat) returns (p: nat, ghost i: nat)
      requires Valid()
      ensures i == FirstFit(blocks, n, 0)
      ensures p == var k := FirstFit(blocks, n, 0); if k < |blocks| then blocks[k].addr else NULL
      ensures p == NULL <==> i == |blocks|
    {
      hide AllStored, Good;
      p := start;
      i := 0;
      BeforeEnd(blocks, start, end, 0);
      while p != NULL
        invariant 0 <= i <= |blocks|
        invariant p == if i < |blocks| then blocks[i].addr else NULL
        invariant i < |blocks| ==> p > 0
        invariant FirstFit(blocks, n, 0) == FirstFit(blocks, n, i)
        decreases |blocks| - i
      {
        var isFree := IsBlkFree(p, i);
        var len := BlkLen(p, i);
        if isFree && len - HEADER - TAIL >= n {
          return;
        }
        p := NextMemBlk(p, i);
        i := i + 1;
        if i < |blocks| { BeforeEnd(blocks, start, end, i); }
      }
    }

    /** The lowest block that fits, growing the pool as long as nothing does. */
    method FindAFreeBlk(n: nat, ghost size: nat) returns (p: nat, ghost i: nat)
      requires Valid() && size > 0 && n == Align8(size)
      modifies mem, this`last, this`allocatedSize, this`end, this`blocks
      ensures Valid()
      ensures TotalUser(blocks) == TotalUser(old(blocks))
      ensures Allocate(blocks, start, end, MEM_POOL_SIZE, size) == Allocate(old(blocks), start, old(end), MEM_POOL_SIZE, size)
      ensures i == FirstFit(blocks, n, 0)
      ensures p == if i < |blocks| then blocks[i].addr else NULL
      ensures p == NULL <==> i == |blocks|
      ensures p == NULL ==> 2 * (end - start) > MEM_POOL_SIZE
      decreases MEM_POOL_SIZE - (end - start)
    {
      hide AllStored, Good, NoFreeNeighbours, Contiguous, TotalUser, Grow;
      p, i := Search(n);
      BeforeEnd(blocks, start, end, 0);
      if i < |blocks| {
        BeforeEnd(blocks, start, end, i);
      }
      if p != NULL {
        return;
      }
      var ok := EnlargeMemPool();
      if ok {
        p, i := FindAFreeBlk(n, size);
      }
    }
  
    /** Splits free block `i` into a free block for `n` user bytes and a free remainder. */
    method SplitMemBlk(p: nat, n: nat, ghost i: nat)
      requires Linked() && i < |blocks| && p == blocks[i].addr && ShouldSplit(blocks[i], n)
      modifies mem, this`blocks
      ensures Linked()
      ensures blocks == SplitFree(old(blocks), i, n)
    {
      hide Stored, SameOutside;
      BeforeEnd(blocks, start, end, i);
      var oldBlkLen := BlkLen(p, i);
      var newBlkLen := HEADER + n + TAIL;
      ghost var m := mem[..];
      InitFreeBlk(p, newBlkLen);
      ghost var m1 := mem[..];
      var next := p + FreshLen(p, newBlkLen);
      InitFreeBlk(next, oldBlkLen - newBlkLen);
      SplitStored(m, m1, mem[..], blocks, start, end, i, n);
      blocks := SplitFree(blocks, i, n);
    }

    /** The length just written into a fresh free block, read back from memory. */
    function FreshLen(p: nat, len: nat): (r: nat)
      requires MEM_POOL_START <= p && len >= OVERHEAD && Stored(mem[..], MEM_POOL_START, FreeBlock(p, len))
      reads mem
      ensures r == len
    {
      Field(p + BLK_LEN, 8)
    }

    static ghost function SplitFree(bs: seq<Block>, i: nat, n: nat): seq<Block>
      requires i < |bs| && ShouldSplit(bs[i], n)
    {
      bs[..i] + [FreeBlock(bs[i].addr, OVERHEAD + n), FreeBlock(bs[i].addr + OVERHEAD + n, bs[i].Len() - OVERHEAD - n)] + bs[i + 1..]
    }

    static lemma SplitStored(m: seq<Byte>, m1: seq<Byte>, m2: seq<Byte>, bs: seq<Block>, lo: nat, hi: nat, i: nat, n: nat)
      requires AllStored(m, lo, bs) && Tiles(bs, lo, hi) && i < |bs| && ShouldSplit(bs[i], n)
      requires lo <= bs[i].addr && bs[i].End() <= lo + |m|
      requires SameOutside(m, m1, bs[i].addr - lo, bs[i].addr + OVERHEAD + n - lo)
      requires Stored(m1, lo, FreeBlock(bs[i].addr, OVERHEAD + n))
      requires SameOutside(m1, m2, bs[i].addr + OVERHEAD + n - lo, bs[i].End() - lo)
      requires Stored(m2, lo, FreeBlock(bs[i].addr + OVERHEAD + n, bs[i].Len() - OVERHEAD - n))
      ensures AllStored(m2, lo, SplitFree(bs, i, n)) && Tiles(SplitFree(bs, i, n), lo, hi)
    {
      hide Stored, Load;
      var b := bs[i];
      var c := FreeBlock(b.addr, OVERHEAD + n);
      var d := FreeBlock(b.addr + OVERHEAD + n, b.Len() - OVERHEAD - n);
      StoredSame(m1, m2, lo, b.addr + OVERHEAD + n - lo, b.End() - lo, c);
      assert AllStored(m2, lo, [c, d]);
      ReplaceBlocks(m, m2, lo, bs, i, i, [c, d]);
      var rs := SplitFree(bs, i, n);
      assert forall k :: 0 <= k < i ==> rs[k] == bs[k];
      assert rs[i] == c && rs[i + 1] == d;
      assert forall k :: i + 1 < k < |rs| ==> rs[k] == bs[k - 1];
      forall k | 0 <= k < |rs| - 1 ensures rs[k].End() == rs[k + 1].addr {
        if k < i {
          assert bs[k].End() == bs[k + 1].addr;
        } else if k > i {
          assert bs[k - 1].End() == (if k < |bs| then bs[k].addr else hi);
        }
      }
    }

    /** Stores one field of block `i`; `c` is the block it becomes. */
    method StoreField(p: nat, off: nat, n: nat, v: nat, ghost i: nat, ghost c: Block)
      requires Linked() && i < |blocks| && p == blocks[i].addr && v < Pow256(n)
      requires (off, n) == (IN_USE, 4) || (off, n) == (USER_START, 8) || (off, n) == (USER_LEN, 8)
      requires off == IN_USE ==> c == blocks[i].(inUse := c.inUse) && v == Flag(c.inUse)
      requires off == USER_START ==> c == blocks[i].(userStart := v)
      requires off == USER_LEN ==> c == blocks[i].(userLen := v)
      modifies mem, this`blocks
      ensures Linked()
      ensures blocks == old(blocks)[i := c]
    {
      hide SameOutside, Load, Stored;
      BeforeEnd(blocks, start, end, i);
      ghost var m := mem[..];
      Store(p + off, n, v);
      assert Stored(m, start, blocks[i]);
      FieldStored(m, mem[..], start, blocks[i], c, off, n);
      UpdateBlock(m, mem[..], start, blocks, i, c, p + off - start, p + off + n - start);
      blocks := blocks[i := c];
    }

    /** Splits free block `i` if enough would be left over, and marks it in use. */
    method MarkMemBlk(p: nat, n: nat, ghost i: nat)
      requires Linked() && i < |blocks| && p == blocks[i].addr && FitsRequest(blocks[i], n)
      modifies mem, this`blocks
      ensures Linked()
      ensures blocks == Place(old(blocks), i, n, n)
    {
      hide AllStored, Tiles;
      Pow256Values();
      ghost var bs := blocks;
      var len := BlkLen(p, i);
      SmallEnough(i);
      if len > HEADER + n + TAIL + HEADER + TAIL {
        SplitMemBlk(p, n, i);
      }
      StoreField(p, IN_USE, 4, 1, i, blocks[i].(inUse := true));
      StoreField(p, USER_START, 8, p + HEADER, i, blocks[i].(userStart := p + HEADER));
      StoreField(p, USER_LEN, 8, n, i, blocks[i].(userLen := n));
      assert blocks == Place(bs, i, n, n);
    }

    lemma SmallEnough(i: nat)
      requires Linked() && i < |blocks|
      ensures blocks[i].addr + blocks[i].Len() < U64
    {
      BeforeEnd(blocks, start, end, i);
    }

    /** kmalloc: ensures exactly what the block-level Allocate says, for every non-zero size. */
    method AllocMem(size: nat) returns (ptr: nat)
      requires Valid() && size <= U64 - 8
      modifies mem, this
      ensures Valid() && start == old(start)
      ensures size == 0 ==> ptr == NULL && blocks == old(blocks) && end == old(end)
      ensures size > 0 ==> Allocation(blocks, ptr) == Allocate(old(blocks), start, old(end), MEM_POOL_SIZE, size)
      ensures size > 0 && ptr == NULL ==> 2 * (end - start) > MEM_POOL_SIZE
    {
      hide AllStored, Good, Place, NoFreeNeighbours, Tiles;
      if size == 0 {
        return NULL;
      }
      Pow256Values();
      var n := (size + 7) / 8 * 8;
      var p;
      ghost var i;
      p, i := FindAFreeBlk(n, size);
      if p == NULL {
        return NULL;
      }
      ghost var bs := blocks;
      PlaceKeeps(bs, start, end, i, size);
      TotalPlace(bs, i, n, size);
      SmallEnough(i);
      MarkMemBlk(p, n, i);
      PlaceThenResize(bs, i, n, size);
      StoreField(p, USER_LEN, 8, size, i, blocks[i].(userLen := size));
      totalLength := totalLength + size;
      ptr := UserStart(p, i);
    }
  
    /** A store through a pointer that was handed out. */
    method WriteUser(ptr: nat, k: nat, v: Byte, ghost i: nat)
      requires Valid() && i < |blocks| && Hands(blocks[i], ptr) && k < |blocks[i].payload|
      modifies mem, this`blocks
      ensures Valid()
      ensures blocks == Poke(old(blocks), i, k, v)
    {
      hide AllStored, Tiles, WellFormed, Hands, TotalUser, Poke;
      HandedByte(mem[..], blocks, start, end, i, ptr, k);
      ghost var m := mem[..];
      var at := ptr - MEM_POOL_START + k;
      mem[at] := v;
      assert mem[..] == m[at := v];
      PokeStored(m, blocks, start, end, i, k, v);
      blocks := Poke(blocks, i, k, v);
    }

    /** Where byte `k` of a block that was handed out lies. */
    static lemma HandedByte(m: seq<Byte>, bs: seq<Block>, lo: nat, hi: nat, i: nat, ptr: nat, k: nat)
      requires WellFormed(bs, lo, hi) && AllStored(m, lo, bs) && i < |bs| && Hands(bs[i], ptr) && k < |bs[i].payload|
      ensures lo <= bs[i].addr && bs[i].inUse && ptr + k == bs[i].addr + HEADER + k < lo + |m|
    {
      assert Good(bs[i]) && Stored(m, lo, bs[i]);
    }

    /** A byte stored in a payload, on the list. */
    static lemma PokeStored(m: seq<Byte>, bs: seq<Block>, lo: nat, hi: nat, i: nat, k: nat, v: Byte)
      requires WellFormed(bs, lo, hi) && AllStored(m, lo, bs) && i < |bs| && bs[i].inUse && k < |bs[i].payload|
      requires lo <= bs[i].addr && bs[i].addr - lo + HEADER + k < |m|
      ensures var m' := m[bs[i].addr - lo + HEADER + k := v];
              && AllStored(m', lo, Poke(bs, i, k, v)) && Tiles(Poke(bs, i, k, v), lo, hi)
              && WellFormed(Poke(bs, i, k, v), lo, hi) && TotalUser(Poke(bs, i, k, v)) == TotalUser(bs)
    {
      WellFormedTiles(bs, lo, hi);
      PokeKeeps(bs, lo, hi, i, k, v);
      WellFormedTiles(Poke(bs, i, k, v), lo, hi);
      TotalPoke(bs, i, k, v);
      hide AllStored, WellFormed, Tiles, TotalUser, Poke;
      PokeBytes(m, bs, lo, i, k, v);
    }

    static lemma PokeBytes(m: seq<Byte>, bs: seq<Block>, lo: nat, i: nat, k: nat, v: Byte)
      requires Contiguous(bs) && AllStored(m, lo, bs) && i < |bs| && k < |bs[i].payload|
      requires lo <= bs[i].addr && bs[i].addr - lo + HEADER + k < |m|
      ensures AllStored(m[bs[i].addr - lo + HEADER + k := v], lo, Poke(bs, i, k, v))
    {
      hide Stored, SameOutside, AllStored, Contiguous;
      var at := bs[i].addr - lo + HEADER + k;
      StoredIn(m, lo, bs, bs[i]);
      PayloadStored(m, m[at := v], lo, bs[i], k, v);
      PokedOutside(m, at, v);
      UpdateBlock(m, m[at := v], lo, bs, i, bs[i].(payload := bs[i].payload[k := v]), at, at + 1);
    }

    static lemma WellFormedTiles(bs: seq<Block>, lo: nat, hi: nat)
      requires WellFormed(bs, lo, hi)
      ensures Tiles(bs, lo, hi) && Contiguous(bs)
    {
    }

    /** kfree's check: the header before `userStart` reads as a block in use. */
    ghost predicate LooksLive(userStart: nat)
      requires MEM_POOL_START + HEADER <= userStart <= MEM_POOL_START + mem.Length
      reads mem
    {
      HeaderOk(mem[..], userStart - HEADER - MEM_POOL_START)
    }

    /**
     * kfree up to the merge: mem_blk_ok, and if it passes, the update of the total and the store of in_use. It
     * takes any pointer whose header can be read, and changes memory if and only if the check passes.
     */
    method CheckAndClear(userStart: nat) returns (passed: bool)
      requires mem.Length == MEM_POOL_SIZE && totalLength < U64
      requires MEM_POOL_START + HEADER <= userStart <= MEM_POOL_START + MEM_POOL_SIZE
      modifies mem, this`totalLength
      ensures passed == old(LooksLive(userStart))
      ensures mem[..] == old(mem[..]) <==> !passed
      ensures !passed ==> totalLength == old(totalLength)
      ensures passed ==> totalLength == (old(totalLength) - old(Field(userStart - HEADER + USER_LEN, 8))) % U64
      ensures passed ==>
                var o := userStart - HEADER - MEM_POOL_START + IN_USE;
                SameOutside(old(mem[..]), mem[..], o, o + 4) && Load(mem[..], o, 4) == 0
    {
      hide Load, SameOutside;
      var memBlk := userStart - HEADER;
      passed := Field(memBlk + MAGIC_NUM, 4) == MAGIC && Field(memBlk + IN_USE, 4) == 1;
      if passed {
        totalLength := (totalLength - Field(memBlk + USER_LEN, 8)) % U64;
        Pow256Values();
        Store(memBlk + IN_USE, 4, 0);
      }
    }

    /**
     * kfree, for any pointer whose header can be read and is not forged in user bytes. A live
     * pointer is released; anything else changes nothing.
     */
    method FreeMem(userStart: nat)
      requires Valid()
      requires userStart != NULL ==> MEM_POOL_START + HEADER <= userStart <= MEM_POOL_START + MEM_POOL_SIZE
      requires userStart != NULL && LooksLive(userStart) ==> LiveIndex(blocks, userStart, 0) < |blocks|
      modifies mem, this`totalLength, this`blocks
      ensures Valid()
      ensures LiveIndex(old(blocks), userStart, 0) < |old(blocks)| ==>
                blocks == Release(old(blocks), LiveIndex(old(blocks), userStart, 0))
      ensures LiveIndex(old(blocks), userStart, 0) == |old(blocks)| ==>
                blocks == old(blocks) && mem[..] == old(mem[..])
    {
      hide Stored, NoFreeNeighbours, Good, Load, Coalesce, MarkFree, SameOutside, HeaderOk;
      ghost var i := LiveIndex(blocks, userStart, 0);
      if i < |blocks| {
        LiveHeader(i);
      }
      if userStart == NULL {
        return;
      }
      ghost var m := mem[..];
      TotalBound(blocks, start, end);
      var passed := CheckAndClear(userStart);
      if passed {
        ReleaseKeeps(blocks, start, end, i);
        TotalRelease(blocks, i);
        UserLenIs(m, blocks, i);
        Cleared(m, mem[..], i);
        MarkFreeAt(blocks, i);
        blocks := MarkFree(blocks, i);
        MergeFreeBlk(userStart - HEADER, i);
      }
    }

    static lemma UserLenIs(m: seq<Byte>, bs: seq<Block>, i: nat)
      requires AllStored(m, MEM_POOL_START, bs) && i < |bs|
      ensures var o := bs[i].addr - MEM_POOL_START;
              MEM_POOL_START <= bs[i].addr && o + HEADER <= |m| && Load(m, o + USER_LEN, 8) == bs[i].userLen
    {
      assert Stored(m, MEM_POOL_START, bs[i]);
    }

    /** Storing zero in the in_use field of block `i` marks it free in the list. */
    lemma Cleared(m: seq<Byte>, m': seq<Byte>, i: nat)
      requires Bounds() && i < |blocks| && AllStored(m, start, blocks) && Contiguous(blocks) && Tiles(blocks, start, end)
      requires |m| == MEM_POOL_SIZE && blocks[i].addr >= start
      requires var o := blocks[i].addr - start + IN_USE; SameOutside(m, m', o, o + 4) && o + 4 <= |m| == |m'| && Load(m', o, 4) == 0
      ensures AllStored(m', start, MarkFree(blocks, i)) && Tiles(MarkFree(blocks, i), start, end)
    {
      hide Load, SameOutside, Stored;
      BeforeEnd(blocks, start, end, i);
      var o := blocks[i].addr - start + IN_USE;
      var c := blocks[i].(inUse := false);
      assert Stored(m, start, blocks[i]);
      FieldStored(m, m', start, blocks[i], c, IN_USE, 4);
      UpdateBlock(m, m', start, blocks, i, c, o, o + 4);
    }

    /** The header of a live block passes kfree's check. */
    lemma LiveHeader(i: nat)
      requires Valid() && i < |blocks| && blocks[i].inUse
      ensures blocks[i].userStart == blocks[i].addr + HEADER
      ensures MEM_POOL_START + HEADER <= blocks[i].userStart <= MEM_POOL_START + mem.Length
      ensures LooksLive(blocks[i].userStart)
    {
      assert Good(blocks[i]) && Stored(mem[..], start, blocks[i]);
    }

    method UserLen(p: nat, ghost i: nat) returns (len: nat)
      requires Linked() && i < |blocks| && p == blocks[i].addr
      ensures len == blocks[i].userLen
    {
      assert Stored(mem[..], start, blocks[i]);
      len := Field(p + USER_LEN, 8);
    }

    /** get_pool_malloc_total_length: the walk over the blocks always agrees with the running total. */
    method GetPoolMallocTotalLength() returns (r: nat)
      requires Valid()
      ensures r == totalLength == TotalUser(blocks)
    {
      hide AllStored, Good, NoFreeNeighbours;
      var p := start;
      ghost var i := 0;
      var total := 0;
      BeforeEnd(blocks, start, end, 0);
      while p != NULL
        invariant 0 <= i <= |blocks|
        invariant p == if i < |blocks| then blocks[i].addr else NULL
        invariant i < |blocks| ==> p > 0
        invariant total == TotalUser(blocks[..i])
        decreases |blocks| - i
      {
        var isFree := IsBlkFree(p, i);
        if !isFree {
          var len := UserLen(p, i);
          total := total + len;
        }
        assert blocks[..i + 1] == blocks[..i] + [blocks[i]];
        TotalAppend(blocks[..i], [blocks[i]]);
        TotalOne(blocks[i]);
        p := NextMemBlk(p, i);
        i := i + 1;
        if i < |blocks| { BeforeEnd(blocks, start, end, i); }
      }
      assert blocks[..i] == blocks;
      if totalLength != total {
        return MISMATCH;
      }
      return totalLength;
    }
  }
}
