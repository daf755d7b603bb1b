/**
 * The heap of mm/mm.c seen as a list of blocks: what allocation, release and pool
 * growth do to the list, and the invariant they keep.
 */
module HeapBlocks {
  import opened Bytes

  const HEADER := 32
  const TAIL := 8
  const OVERHEAD := 40

  /** One block: the address of its header, the header fields, the bytes between header and tail. */
  datatype Block = Block(addr: nat, inUse: bool, userStart: nat, userLen: nat, payload: seq<Byte>) {
    function Len(): nat { OVERHEAD + |payload| }
    function End(): nat { addr + Len() }
  }

  /** What init_free_blk leaves behind: all zero but magic, length and tail. */
  function FreeBlock(addr: nat, len: nat): (b: Block)
    requires len >= OVERHEAD
    ensures b.Len() == len
  {
    Block(addr, false, 0, 0, Zeros(len - OVERHEAD))
  }

  /** ALIGNED_TO_8BYTES. */
  function Align8(n: nat): (r: nat)
    ensures r % 8 == 0 && n <= r < n + 8
  {
    (n + 7) / 8 * 8
  }

  /** Blocks laid back to back. */
  ghost predicate Contiguous(bs: seq<Block>) {
    forall i :: 0 <= i < |bs| - 1 ==> bs[i].End() == bs[i + 1].addr
  }

  /** The blocks tile [lo, hi) exactly. */
  ghost predicate Tiles(bs: seq<Block>, lo: nat, hi: nat) {
    && |bs| > 0
    && bs[0].addr == lo
    && bs[|bs| - 1].End() == hi
    && Contiguous(bs)
  }

  /**
   * A block between two calls: 8-aligned; a used block hands out its whole payload, with at
   * most one minimal block of slack; a free block is entirely zeroed.
   */
  ghost predicate Good(b: Block) {
    && b.addr % 8 == 0
    && |b.payload| % 8 == 0
    && (b.inUse ==> b.userStart == b.addr + HEADER && 1 <= b.userLen <= |b.payload| <= Align8(b.userLen) + OVERHEAD)
    && (!b.inUse ==> b == FreeBlock(b.addr, b.Len()))
  }

  ghost predicate NoFreeNeighbours(bs: seq<Block>) {
    forall i :: 0 <= i < |bs| - 1 ==> bs[i].inUse || bs[i + 1].inUse
  }

  /** The heap invariant. */
  ghost predicate WellFormed(bs: seq<Block>, lo: nat, hi: nat) {
    && Tiles(bs, lo, hi)
    && NoFreeNeighbours(bs)
    && forall i :: 0 <= i < |bs| ==> Good(bs[i])
  }

  lemma {:induction false} Ordered(bs: seq<Block>, i: nat, j: nat)
    requires Contiguous(bs) && i < j < |bs|
    ensures bs[i].End() + OVERHEAD * (j - i - 1) <= bs[j].addr
    decreases j
  {
    if i + 1 < j {
      Ordered(bs, i, j - 1);
    }
  }

  lemma {:induction false} BeforeEnd(bs: seq<Block>, lo: nat, hi: nat, i: nat)
    requires Tiles(bs, lo, hi) && i < |bs|
    ensures lo <= bs[i].addr && bs[i].End() <= hi
  {
    if i > 0 { Ordered(bs, 0, i); }
    if i < |bs| - 1 { Ordered(bs, i, |bs| - 1); }
  }

  // ---------------------------------------------------------------------------------------
  // Searching

  predicate FitsRequest(b: Block, n: nat) { !b.inUse && |b.payload| >= n }

  /** The first block from index `i` on that can hold `n` bytes; |bs| if there is none. */
  function FirstFit(bs: seq<Block>, n: nat, i: nat): (r: nat)
    requires i <= |bs|
    ensures i <= r <= |bs|
    ensures forall k :: i <= k < r ==> !FitsRequest(bs[k], n)
    ensures r < |bs| ==> FitsRequest(bs[r], n)
    ensures forall k :: i <= k < r ==> bs[k].inUse || |bs[k].payload| < n
    ensures r < |bs| ==> !bs[r].inUse && |bs[r].payload| >= n
    decreases |bs| - i
  {
    if i == |bs| then i else if FitsRequest(bs[i], n) then i else FirstFit(bs, n, i + 1)
  }

  // ---------------------------------------------------------------------------------------
  // Placing a request in a free block

  predicate ShouldSplit(b: Block, n: nat) { b.Len() > HEADER + n + TAIL + HEADER + TAIL }

  function UsedBlock(addr: nat, size: nat, payload: seq<Byte>): Block {
    Block(addr, true, addr + HEADER, size, payload)
  }

  /** The blocks that take the place of the free block `b` when it serves a request. */
  function Carve(b: Block, n: nat, size: nat): (cs: seq<Block>)
    ensures |cs| > 0
  {
    if ShouldSplit(b, n) then
      [UsedBlock(b.addr, size, Zeros(n)), FreeBlock(b.addr + OVERHEAD + n, b.Len() - OVERHEAD - n)]
    else
      [UsedBlock(b.addr, size, b.payload)]
  }

  function Place(bs: seq<Block>, i: nat, n: nat, size: nat): seq<Block>
    requires i < |bs|
  {
    bs[..i] + Carve(bs[i], n, size) + bs[i + 1..]
  }

  /** mark_mem_blk records the rounded size first; alloc_mem then stores the requested one. */
  lemma {:induction false} PlaceThenResize(bs: seq<Block>, i: nat, n: nat, size: nat)
    requires i < |bs|
    ensures i < |Place(bs, i, n, n)| && Place(bs, i, n, n)[i].addr == bs[i].addr
    ensures var ps := Place(bs, i, n, n); ps[i := ps[i].(userLen := size)] == Place(bs, i, n, size)
    ensures Place(bs, i, n, size)[i].userStart == bs[i].addr + HEADER
  {
    var ps := Place(bs, i, n, n);
    assert ps[i] == Carve(bs[i], n, n)[0];
  }

  lemma {:induction false} EndAligned(b: Block)
    requires b.addr % 8 == 0 && |b.payload| % 8 == 0
    ensures b.End() % 8 == 0
  {
  }

  lemma GoodAligned(b: Block)
    requires Good(b)
    ensures b.addr % 8 == 0 && b.End() % 8 == 0
  {
    EndAligned(b);
  }

  lemma GoodFree(addr: nat, end: nat)
    requires addr % 8 == 0 && end % 8 == 0 && addr + OVERHEAD <= end
    ensures Good(FreeBlock(addr, end - addr))
  {
  }

  /** A block handed out for `size` bytes, with at most a minimal block of slack. */
  lemma GoodUsed(addr: nat, size: nat, payload: seq<Byte>)
    requires addr % 8 == 0 && |payload| % 8 == 0 && size > 0 && Align8(size) <= |payload| <= Align8(size) + OVERHEAD
    ensures Good(UsedBlock(addr, size, payload))
  {
  }

  /** The pieces of a carved block are good blocks that cover it exactly; the first is in use. */
  lemma {:induction false} CarvedGood(b: Block, size: nat)
    requires Good(b) && size > 0 && FitsRequest(b, Align8(size))
    ensures var cs := Carve(b, Align8(size), size);
            && 1 <= |cs| <= 2 && cs[0].inUse && Good(cs[0]) && Good(cs[|cs| - 1])
            && cs[0].addr == b.addr && cs[|cs| - 1].End() == b.End()
            && (|cs| == 2 ==> cs[0].End() == cs[1].addr)
  {
    var n := Align8(size);
    GoodAligned(b);
    assert |b.payload| % 8 == 0;
    assert n % 8 == 0;
    if ShouldSplit(b, n) {
      hide Align8;
      assert |Zeros(n)| == n;
      GoodUsed(b.addr, size, Zeros(n));
      assert (b.addr + OVERHEAD + n) % 8 == 0;
      GoodFree(b.addr + OVERHEAD + n, b.End());
    } else {
      GoodUsed(b.addr, size, b.payload);
    }
  }

  lemma {:induction false} PlaceKeeps(bs: seq<Block>, lo: nat, hi: nat, i: nat, size: nat)
    requires WellFormed(bs, lo, hi) && i < |bs| && size > 0
    requires FitsRequest(bs[i], Align8(size))
    ensures WellFormed(Place(bs, i, Align8(size), size), lo, hi)
  {
    CarvedGood(bs[i], size);
    hide Good, Carve, Align8, FreeBlock, FitsRequest;
    var cs := Carve(bs[i], Align8(size), size);
    CoveredBy(bs, lo, hi, i, cs);
    forall b | b in bs[..i] + cs + bs[i + 1..] ensures Good(b) {
      if b in cs { assert b == cs[0] || b == cs[|cs| - 1]; }
    }
  }

  /** Blocks that cover a free block exactly, the first of them in use, may take its place. */
  lemma CoveredBy(bs: seq<Block>, lo: nat, hi: nat, i: nat, cs: seq<Block>)
    requires Tiles(bs, lo, hi) && NoFreeNeighbours(bs) && i < |bs| && !bs[i].inUse
    requires 1 <= |cs| <= 2 && cs[0].inUse && cs[0].addr == bs[i].addr && cs[|cs| - 1].End() == bs[i].End()
    requires |cs| == 2 ==> cs[0].End() == cs[1].addr
    ensures Tiles(bs[..i] + cs + bs[i + 1..], lo, hi) && NoFreeNeighbours(bs[..i] + cs + bs[i + 1..])
  {
    var pre, post := bs[..i], bs[i + 1..];
    assert Chained(cs);
    ChainedSlice(bs, 0, i);
    ChainedSlice(bs, i + 1, |bs|);
    Touching(bs, i);
    Ends(bs, i, cs);
    hide Contiguous, NoFreeNeighbours;
    ChainedJoin(pre, cs);
    ChainedJoin(pre + cs, post);
  }

  lemma Ends(bs: seq<Block>, i: nat, cs: seq<Block>)
    requires i < |bs| && cs != [] && cs[0].addr == bs[i].addr && cs[|cs| - 1].End() == bs[i].End()
    ensures var ps := bs[..i] + cs + bs[i + 1..]; |ps| > 0 && ps[0].addr == bs[0].addr && ps[|ps| - 1].End() == bs[|bs| - 1].End()
    ensures i > 0 ==> bs[..i][i - 1] == bs[i - 1]
    ensures i + 1 < |bs| ==> bs[i + 1..][0] == bs[i + 1]
    ensures (bs[..i] + cs)[|bs[..i] + cs| - 1] == cs[|cs| - 1]
  {
  }

  /** Back to back, and no two free blocks side by side. */
  ghost predicate Chained(bs: seq<Block>) { Contiguous(bs) && NoFreeNeighbours(bs) }

  lemma ChainedSlice(bs: seq<Block>, l: nat, r: nat)
    requires Chained(bs) && l <= r <= |bs|
    ensures Chained(bs[l..r])
  {
    var ts := bs[l..r];
    forall k | 0 <= k < |ts| - 1 ensures ts[k].End() == ts[k + 1].addr && (ts[k].inUse || ts[k + 1].inUse) {
      assert bs[l + k].End() == bs[l + k + 1].addr && (bs[l + k].inUse || bs[l + k + 1].inUse);
    }
  }

  lemma ChainedJoin(xs: seq<Block>, ys: seq<Block>)
    requires Chained(xs) && Chained(ys)
    requires xs != [] && ys != [] ==> xs[|xs| - 1].End() == ys[0].addr && (xs[|xs| - 1].inUse || ys[0].inUse)
    ensures Chained(xs + ys)
  {
    var zs := xs + ys;
    forall k | 0 <= k < |zs| - 1 ensures zs[k].End() == zs[k + 1].addr && (zs[k].inUse || zs[k + 1].inUse) {
      if k >= |xs| {
        var j := k - |xs|;
        assert ys[j].End() == ys[j + 1].addr && (ys[j].inUse || ys[j + 1].inUse);
      }
    }
  }

  lemma Touching(bs: seq<Block>, i: nat)
    requires Chained(bs) && i < |bs|
    ensures i > 0 ==> bs[i - 1].End() == bs[i].addr && (bs[i - 1].inUse || bs[i].inUse)
    ensures i + 1 < |bs| ==> bs[i].End() == bs[i + 1].addr && (bs[i].inUse || bs[i + 1].inUse)
  {
    if i > 0 { var j := i - 1; assert bs[j].End() == bs[j + 1].addr; }
  }

  // ---------------------------------------------------------------------------------------
  // Merging free blocks

  /** First block of the run of free blocks that ends at `i`. */
  function RunStart(bs: seq<Block>, i: nat): (l: nat)
    requires i < |bs|
    ensures l <= i
    ensures forall k :: l <= k < i ==> !bs[k].inUse
    ensures l > 0 ==> bs[l - 1].inUse
  {
    if i > 0 && !bs[i - 1].inUse then RunStart(bs, i - 1) else i
  }

  /** Last block of the run of free blocks that starts at `i`. */
  function RunEnd(bs: seq<Block>, i: nat): (r: nat)
    requires i < |bs|
    ensures i <= r < |bs|
    ensures forall k :: i < k <= r ==> !bs[k].inUse
    ensures r + 1 < |bs| ==> bs[r + 1].inUse
    decreases |bs| - i
  {
    if i + 1 < |bs| && !bs[i + 1].inUse then RunEnd(bs, i + 1) else i
  }

  /** The whole run of free blocks around `i` becomes one zeroed free block. */
  function Coalesce(bs: seq<Block>, i: nat): seq<Block>
    requires i < |bs| && Spans(bs, RunStart(bs, i), RunEnd(bs, i))
  {
    var l, r := RunStart(bs, i), RunEnd(bs, i);
    bs[..l] + [FreeBlock(bs[l].addr, bs[r].End() - bs[l].addr)] + bs[r + 1..]
  }

  predicate Spans(bs: seq<Block>, l: nat, r: nat)
    requires l <= r < |bs|
  {
    bs[l].addr + OVERHEAD <= bs[r].End()
  }

  lemma {:induction false} ContiguousSpans(bs: seq<Block>, l: nat, r: nat)
    requires Contiguous(bs) && l <= r < |bs|
    ensures Spans(bs, l, r)
  {
    if l < r { Ordered(bs, l, r); }
  }

  /**
   * Good everywhere except that block `i` was just marked free and may still hold user
   * bytes, and no two other neighbours are both free.
   */
  ghost predicate NearlyWellFormed(bs: seq<Block>, lo: nat, hi: nat, i: nat) {
    && Tiles(bs, lo, hi)
    && i < |bs| && !bs[i].inUse && bs[i].addr % 8 == 0 && |bs[i].payload| % 8 == 0
    && (forall k :: 0 <= k < |bs| && k != i ==> Good(bs[k]))
    && (forall k :: 0 <= k < |bs| - 1 && k != i && k + 1 != i ==> bs[k].inUse || bs[k + 1].inUse)
  }

  /** The invariant leaves at most one free block to merge on either side. */
  lemma {:induction false} RunIsShort(bs: seq<Block>, lo: nat, hi: nat, i: nat)
    requires NearlyWellFormed(bs, lo, hi, i)
    ensures i <= RunStart(bs, i) + 1 && RunEnd(bs, i) <= i + 1
  {
  }

  lemma {:induction false} MergedGood(bs: seq<Block>, lo: nat, hi: nat, i: nat)
    requires NearlyWellFormed(bs, lo, hi, i)
    ensures var l, r := RunStart(bs, i), RunEnd(bs, i);
            Spans(bs, l, r) && Good(FreeBlock(bs[l].addr, bs[r].End() - bs[l].addr))
  {
    hide RunStart, RunEnd, Good, FreeBlock, Contiguous;
    RunAround(bs, i);
    var l, r := RunStart(bs, i), RunEnd(bs, i);
    ContiguousSpans(bs, l, r);
    EndAligned(bs[i]);
    if l != i { GoodAligned(bs[l]); }
    if r != i { GoodAligned(bs[r]); }
    GoodFree(bs[l].addr, bs[r].End());
  }

  ghost predicate AllFree(bs: seq<Block>) { forall k :: 0 <= k < |bs| ==> !bs[k].inUse }

  lemma RunFree(bs: seq<Block>, i: nat)
    requires i < |bs| && !bs[i].inUse
    ensures RunStart(bs, i) <= i <= RunEnd(bs, i) < |bs|
    ensures AllFree(bs[RunStart(bs, i)..RunEnd(bs, i) + 1])
  {
  }

  /** A maximal run of free blocks is the run around each of its members. */
  lemma RunIs(bs: seq<Block>, i: nat, l: nat, r: nat)
    requires l <= i <= r < |bs|
    requires forall k :: l <= k <= r ==> !bs[k].inUse
    requires l > 0 ==> bs[l - 1].inUse
    requires r + 1 < |bs| ==> bs[r + 1].inUse
    ensures RunStart(bs, i) == l && RunEnd(bs, i) == r
  {
  }

  lemma RunAround(bs: seq<Block>, i: nat)
    requires i < |bs|
    ensures RunStart(bs, i) <= i <= RunEnd(bs, i) < |bs|
  {
  }

  lemma {:induction false} CoalesceKeeps(bs: seq<Block>, lo: nat, hi: nat, i: nat)
    requires NearlyWellFormed(bs, lo, hi, i)
    ensures Spans(bs, RunStart(bs, i), RunEnd(bs, i))
    ensures WellFormed(Coalesce(bs, i), lo, hi)
  {
    MergedGood(bs, lo, hi, i);
    RunIsShort(bs, lo, hi, i);
    RunAround(bs, i);
    hide RunStart, RunEnd, Good, FreeBlock, WellFormed, Contiguous;
    var l, r := RunStart(bs, i), RunEnd(bs, i);
    MergeKeeps(bs, lo, hi, l, r, FreeBlock(bs[l].addr, bs[r].End() - bs[l].addr));
  }

  /** Replacing blocks l..r by one good free block between used neighbours keeps the invariant. */
  lemma {:induction false} MergeKeeps(bs: seq<Block>, lo: nat, hi: nat, l: nat, r: nat, b: Block)
    requires Tiles(bs, lo, hi) && l <= r < |bs|
    requires forall k :: 0 <= k < |bs| && !(l <= k <= r) ==> Good(bs[k])
    requires forall k :: 0 <= k < |bs| - 1 && (k + 1 < l || r < k) ==> bs[k].inUse || bs[k + 1].inUse
    requires l > 0 ==> bs[l - 1].inUse
    requires r + 1 < |bs| ==> bs[r + 1].inUse
    requires Good(b) && b.addr == bs[l].addr && b.End() == bs[r].End()
    ensures WellFormed(bs[..l] + [b] + bs[r + 1..], lo, hi)
  {
    hide Good;
    var rs := bs[..l] + [b] + bs[r + 1..];
    var d := r - l;
    assert forall k :: 0 <= k < l ==> rs[k] == bs[k];
    assert rs[l] == b;
    assert forall k :: l < k < |rs| ==> rs[k] == bs[k + d];
    forall k | 0 <= k < |rs| - 1
      ensures rs[k].End() == rs[k + 1].addr && (rs[k].inUse || rs[k + 1].inUse)
    {
      if k + 1 < l {
      } else if k + 1 == l {
        assert bs[k].End() == bs[k + 1].addr;
      } else if k == l {
        assert rs[k + 1] == bs[r + 1];
      } else {
        assert rs[k] == bs[k + d] && rs[k + 1] == bs[k + d + 1];
        assert bs[k + d].End() == bs[k + d + 1].addr;
      }
    }
    forall k | 0 <= k < |rs| ensures Good(rs[k]) {
      if k < l { assert rs[k] == bs[k]; } else if k > l { assert rs[k] == bs[k + d]; }
    }
  }

  // ---------------------------------------------------------------------------------------
  // Release and growth

  function MarkFree(bs: seq<Block>, i: nat): seq<Block>
    requires i < |bs|
  {
    bs[i := bs[i].(inUse := false)]
  }

  lemma MarkFreeAt(bs: seq<Block>, i: nat)
    requires i < |bs|
    ensures |MarkFree(bs, i)| == |bs| && MarkFree(bs, i)[i].addr == bs[i].addr && !MarkFree(bs, i)[i].inUse
  {
  }

  ghost function Release(bs: seq<Block>, i: nat): seq<Block>
    requires i < |bs| && Contiguous(bs)
  {
    MarkFreeSpans(bs, i);
    Coalesce(MarkFree(bs, i), i)
  }

  lemma {:induction false} MarkFreeSpans(bs: seq<Block>, i: nat)
    requires i < |bs| && Contiguous(bs)
    ensures Contiguous(MarkFree(bs, i))
    ensures var ms := MarkFree(bs, i); Spans(ms, RunStart(ms, i), RunEnd(ms, i))
  {
    var ms := MarkFree(bs, i);
    ContiguousSpans(ms, RunStart(ms, i), RunEnd(ms, i));
  }

  lemma {:induction false} MarkFreeNearly(bs: seq<Block>, lo: nat, hi: nat, i: nat)
    requires WellFormed(bs, lo, hi) && i < |bs|
    ensures NearlyWellFormed(MarkFree(bs, i), lo, hi, i)
  {
    assert Good(bs[i]);
  }

  lemma {:induction false} ReleaseKeeps(bs: seq<Block>, lo: nat, hi: nat, i: nat)
    requires WellFormed(bs, lo, hi) && i < |bs|
    ensures WellFormed(Release(bs, i), lo, hi)
  {
    MarkFreeNearly(bs, lo, hi, i);
    CoalesceKeeps(MarkFree(bs, i), lo, hi, i);
  }

  function Extended(bs: seq<Block>): (es: seq<Block>)
    requires |bs| > 0 && Spans(bs, 0, |bs| - 1)
  {
    var lo, hi := bs[0].addr, bs[|bs| - 1].End();
    bs + [FreeBlock(hi, hi - lo)]
  }

  /** enlarge_mem_pool: as many bytes again, merged with the last block if that is free. */
  ghost function Grow(bs: seq<Block>): seq<Block>
    requires |bs| > 0 && Contiguous(bs)
  {
    ExtendedSpans(bs);
    Coalesce(Extended(bs), |bs|)
  }

  lemma {:induction false} ExtendedSpans(bs: seq<Block>)
    requires |bs| > 0 && Contiguous(bs)
    ensures Spans(bs, 0, |bs| - 1)
    ensures Contiguous(Extended(bs))
    ensures var es := Extended(bs); Spans(es, RunStart(es, |bs|), RunEnd(es, |bs|))
  {
    ContiguousSpans(bs, 0, |bs| - 1);
    var es := Extended(bs);
    assert forall k :: 0 <= k < |es| - 1 ==> es[k].End() == es[k + 1].addr;
    ContiguousSpans(es, RunStart(es, |bs|), RunEnd(es, |bs|));
  }

  lemma {:induction false} ExtendedNearly(bs: seq<Block>, lo: nat, hi: nat)
    requires WellFormed(bs, lo, hi)
    ensures lo + OVERHEAD <= hi && Spans(bs, 0, |bs| - 1)
    ensures NearlyWellFormed(Extended(bs), lo, hi + (hi - lo), |bs|)
  {
    GoodAligned(bs[0]);
    GoodAligned(bs[|bs| - 1]);
    ContiguousSpans(bs, 0, |bs| - 1);
    ExtendedSpans(bs);
    DoubledAligned(lo, hi);
    hide Good, Contiguous, RunStart, RunEnd;
    var es := Extended(bs);
    assert forall k :: 0 <= k < |bs| ==> es[k] == bs[k];
    assert es[|bs|] == FreeBlock(hi, hi - lo);
    forall k | 0 <= k < |es| - 1 && k != |bs| && k + 1 != |bs| ensures es[k].inUse || es[k + 1].inUse {
      assert bs[k].inUse || bs[k + 1].inUse;
    }
  }

  lemma DoubledAligned(lo: nat, hi: nat)
    requires lo % 8 == 0 && hi % 8 == 0 && lo + OVERHEAD <= hi
    ensures |FreeBlock(hi, hi - lo).payload| % 8 == 0
  {
  }

  lemma {:induction false} GrowKeeps(bs: seq<Block>, lo: nat, hi: nat)
    requires WellFormed(bs, lo, hi)
    ensures lo + OVERHEAD <= hi
    ensures WellFormed(Grow(bs), lo, hi + (hi - lo))
  {
    ExtendedNearly(bs, lo, hi);
    CoalesceKeeps(Extended(bs), lo, hi + (hi - lo), |bs|);
  }

  // ---------------------------------------------------------------------------------------
  // Allocation as a whole

  /** The blocks after a request, and the address handed out (0 for NULL). */
  datatype Allocation = Allocation(blocks: seq<Block>, ptr: nat)

  /** alloc_mem for a non-zero size: first fit, doubling a pool of at most `limit` bytes until something fits. */
  ghost function Allocate(bs: seq<Block>, lo: nat, hi: nat, limit: nat, size: nat): (r: Allocation)
    requires WellFormed(bs, lo, hi) && size > 0
    decreases limit - (hi - lo)
  {
    GrowKeeps(bs, lo, hi);
    var i := FirstFit(bs, Align8(size), 0);
    if i < |bs| then Allocation(Place(bs, i, Align8(size), size), bs[i].addr + HEADER)
    else if 2 * (hi - lo) <= limit then Allocate(Grow(bs), lo, hi + (hi - lo), limit, size)
    else Allocation(bs, 0)
  }

  /** Bytes handed out, as pool->total_length counts them. */
  function TotalUser(bs: seq<Block>): nat {
    if bs == [] then 0 else (if bs[0].inUse then bs[0].userLen else 0) + TotalUser(bs[1..])
  }

  lemma {:induction false} TotalAppend(xs: seq<Block>, ys: seq<Block>)
    ensures TotalUser(xs + ys) == TotalUser(xs) + TotalUser(ys)
  {
    if xs == [] {
      assert xs + ys == ys;
    } else {
      assert (xs + ys)[1..] == xs[1..] + ys;
      TotalAppend(xs[1..], ys);
    }
  }

  lemma {:induction false} TotalSplit(xs: seq<Block>, ys: seq<Block>, zs: seq<Block>)
    ensures TotalUser(xs + ys + zs) == TotalUser(xs) + TotalUser(ys) + TotalUser(zs)
  {
    TotalAppend(xs, ys);
    TotalAppend(xs + ys, zs);
  }

  lemma {:induction false} TotalFree(bs: seq<Block>)
    requires AllFree(bs)
    ensures TotalUser(bs) == 0
  {
    if bs != [] { TotalFree(bs[1..]); }
  }

  lemma {:induction false} TotalOne(b: Block)
    ensures TotalUser([b]) == if b.inUse then b.userLen else 0
  {
    assert [b][1..] == [];
  }

  lemma {:induction false} TotalReplace(bs: seq<Block>, l: nat, r: nat, cs: seq<Block>)
    requires l <= r <= |bs|
    ensures TotalUser(bs[..l] + cs + bs[r..]) == TotalUser(bs) - TotalUser(bs[l..r]) + TotalUser(cs)
  {
    TotalSplit(bs[..l], cs, bs[r..]);
    TotalSplit(bs[..l], bs[l..r], bs[r..]);
    assert bs == bs[..l] + bs[l..r] + bs[r..];
  }

  lemma {:induction false} TotalCarve(b: Block, n: nat, size: nat)
    ensures TotalUser(Carve(b, n, size)) == size
  {
    var cs := Carve(b, n, size);
    TotalOne(cs[0]);
    assert cs == [cs[0]] + cs[1..];
    TotalAppend([cs[0]], cs[1..]);
    TotalFree(cs[1..]);
  }

  lemma {:induction false} TotalPlace(bs: seq<Block>, i: nat, n: nat, size: nat)
    requires i < |bs| && !bs[i].inUse
    ensures TotalUser(Place(bs, i, n, size)) == TotalUser(bs) + size
  {
    TotalReplace(bs, i, i + 1, Carve(bs[i], n, size));
    TotalCarve(bs[i], n, size);
    TotalFree(bs[i..i + 1]);
  }

  lemma {:induction false} TotalCoalesce(bs: seq<Block>, i: nat)
    requires i < |bs| && !bs[i].inUse && Spans(bs, RunStart(bs, i), RunEnd(bs, i))
    ensures TotalUser(Coalesce(bs, i)) == TotalUser(bs)
  {
    RunFree(bs, i);
    hide RunStart, RunEnd, AllFree, TotalUser, Spans;
    var l, r := RunStart(bs, i), RunEnd(bs, i);
    TotalMerged(bs, l, r, FreeBlock(bs[l].addr, bs[r].End() - bs[l].addr));
  }

  /** Free blocks count for nothing, nor does the one that takes their place. */
  lemma {:induction false} TotalMerged(bs: seq<Block>, l: nat, r: nat, b: Block)
    requires l <= r < |bs| && AllFree(bs[l..r + 1]) && !b.inUse
    ensures TotalUser(bs[..l] + [b] + bs[r + 1..]) == TotalUser(bs)
  {
    hide AllFree, TotalUser;
    TotalOne(b);
    TotalFree(bs[l..r + 1]);
    TotalReplace(bs, l, r + 1, [b]);
  }

  lemma {:induction false} TotalMarkFree(bs: seq<Block>, i: nat)
    requires i < |bs| && bs[i].inUse
    ensures TotalUser(MarkFree(bs, i)) == TotalUser(bs) - bs[i].userLen
  {
    var b := bs[i].(inUse := false);
    assert MarkFree(bs, i) == bs[..i] + [b] + bs[i + 1..];
    TotalReplace(bs, i, i + 1, [b]);
    TotalFree([b]);
    assert bs[i..i + 1] == [bs[i]];
    TotalOne(bs[i]);
  }

  lemma {:induction false} TotalRelease(bs: seq<Block>, i: nat)
    requires i < |bs| && Contiguous(bs) && bs[i].inUse
    ensures TotalUser(Release(bs, i)) == TotalUser(bs) - bs[i].userLen
  {
    MarkFreeSpans(bs, i);
    TotalCoalesce(MarkFree(bs, i), i);
    TotalMarkFree(bs, i);
  }

  lemma {:induction false} TotalGrow(bs: seq<Block>)
    requires |bs| > 0 && Contiguous(bs)
    ensures TotalUser(Grow(bs)) == TotalUser(bs)
  {
    ExtendedSpans(bs);
    var es := Extended(bs);
    TotalCoalesce(es, |bs|);
    TotalAppend(bs, [es[|bs|]]);
    TotalOne(es[|bs|]);
  }

  /** The bytes handed out never exceed the pool. */
  lemma {:induction false} TotalBound(bs: seq<Block>, lo: nat, hi: nat)
    requires WellFormed(bs, lo, hi)
    ensures lo + TotalUser(bs) <= hi
    decreases |bs|
  {
    assert Good(bs[0]);
    if |bs| == 1 {
      assert bs == [bs[0]];
      TotalOne(bs[0]);
    } else {
      var ts := bs[1..];
      assert forall k :: 0 <= k < |ts| ==> ts[k] == bs[k + 1];
      assert WellFormed(ts, bs[0].End(), hi);
      TotalBound(ts, bs[0].End(), hi);
    }
  }

  /** What a request does to the heap, wherever the pool has to grow. */
  lemma {:induction false} AllocateKeeps(bs: seq<Block>, lo: nat, hi: nat, limit: nat, size: nat) returns (hi': nat)
    requires WellFormed(bs, lo, hi) && size > 0
    requires hi - lo <= limit
    ensures hi <= hi' <= lo + limit
    ensures WellFormed(Allocate(bs, lo, hi, limit, size).blocks, lo, hi')
    ensures TotalUser(Allocate(bs, lo, hi, limit, size).blocks)
         == TotalUser(bs) + if Allocate(bs, lo, hi, limit, size).ptr == 0 then 0 else size
    decreases limit - (hi - lo)
  {
    hide Good, Place, Grow, FirstFit, NoFreeNeighbours;
    var i := FirstFit(bs, Align8(size), 0);
    if i < |bs| {
      PlaceKeeps(bs, lo, hi, i, size);
      TotalPlace(bs, i, Align8(size), size);
      hi' := hi;
    } else {
      GrowKeeps(bs, lo, hi);
      TotalGrow(bs);
      if 2 * (hi - lo) <= limit {
        hi' := AllocateKeeps(Grow(bs), lo, hi + (hi - lo), limit, size);
      } else {
        hi' := hi;
      }
    }
  }

  /**
   * Which block serves a request, and what becomes of it, in numbers. It is the lowest free block with room for the
   * rounded size. Up to 40 bytes more stay in the block; otherwise the rest, less 40 bytes for its own header and
   * tail, is a free block.
   */
  lemma Served(bs: seq<Block>, lo: nat, hi: nat, limit: nat, size: nat, i: nat)
    requires WellFormed(bs, lo, hi) && size > 0 && i < |bs| && !bs[i].inUse && |bs[i].payload| >= Align8(size)
    requires forall k :: 0 <= k < i ==> bs[k].inUse || |bs[k].payload| < Align8(size)
    ensures var r, b, n := Allocate(bs, lo, hi, limit, size), bs[i], Align8(size);
            && r.ptr == b.addr + 32
            && r.blocks == if |b.payload| <= n + 40 then bs[i := Block(b.addr, true, b.addr + 32, size, b.payload)]
                           else bs[..i] + [Block(b.addr, true, b.addr + 32, size, seq(n, _ => 0)),
                                           Block(b.addr + 40 + n, false, 0, 0, seq(|b.payload| - n - 40, _ => 0))] + bs[i + 1..]
  {
    var n := Align8(size);
    assert FirstFit(bs, n, 0) == i;
    hide WellFormed, Align8, FirstFit;
    assert Place(bs, i, n, size)[i] == Carve(bs[i], n, size)[0];
    if |bs[i].payload| <= n + 40 {
      assert Place(bs, i, n, size) == bs[i := UsedBlock(bs[i].addr, size, bs[i].payload)];
    }
  }

  // ---------------------------------------------------------------------------------------
  // Which block a user pointer stands for

  predicate Hands(b: Block, ptr: nat) { b.inUse && b.userStart == ptr }

  /** The block in use from index `i` on that was handed out as `ptr`; |bs| if there is none. */
  function LiveIndex(bs: seq<Block>, ptr: nat, i: nat): (r: nat)
    requires i <= |bs|
    ensures i <= r <= |bs|
    ensures r < |bs| ==> Hands(bs[r], ptr)
    ensures r == |bs| ==> forall k :: i <= k < |bs| ==> !Hands(bs[k], ptr)
    decreases |bs| - i
  {
    if i == |bs| then i else if Hands(bs[i], ptr) then i else LiveIndex(bs, ptr, i + 1)
  }

  /** The bytes of a user range, written by the caller: byte `k` of the payload of block `i`. */
  function Poke(bs: seq<Block>, i: nat, k: nat, v: Byte): seq<Block>
    requires i < |bs| && k < |bs[i].payload|
  {
    bs[i := bs[i].(payload := bs[i].payload[k := v])]
  }

  lemma {:induction false} PokeKeeps(bs: seq<Block>, lo: nat, hi: nat, i: nat, k: nat, v: Byte)
    requires WellFormed(bs, lo, hi) && i < |bs| && bs[i].inUse && k < |bs[i].payload|
    ensures WellFormed(Poke(bs, i, k, v), lo, hi)
  {
    var ps := Poke(bs, i, k, v);
    assert Good(bs[i]) && Good(ps[i]);
    hide Good;
    assert forall j :: 0 <= j < |ps| ==> ps[j].addr == bs[j].addr && |ps[j].payload| == |bs[j].payload| && ps[j].inUse == bs[j].inUse;
    forall j | 0 <= j < |ps| - 1 ensures ps[j].End() == ps[j + 1].addr && (ps[j].inUse || ps[j + 1].inUse) {
      assert bs[j].End() == bs[j + 1].addr && (bs[j].inUse || bs[j + 1].inUse);
    }
  }

  lemma {:induction false} TotalPoke(bs: seq<Block>, i: nat, k: nat, v: Byte)
    requires i < |bs| && k < |bs[i].payload|
    ensures TotalUser(Poke(bs, i, k, v)) == TotalUser(bs)
  {
    var b := bs[i].(payload := bs[i].payload[k := v]);
    assert Poke(bs, i, k, v) == bs[..i] + [b] + bs[i + 1..];
    TotalReplace(bs, i, i + 1, [b]);
    assert bs[i..i + 1] == [bs[i]];
    TotalOne(bs[i]);
    TotalOne(b);
  }
}
