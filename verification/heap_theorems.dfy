/**
 * What a client of the allocator can rely on: over any run the heap behaves like a finite set
 * of disjoint byte ranges, and a request that is given back leaves no trace in memory.
 */
module HeapTheorems {
  import opened Bytes
  import opened HeapBlocks
  import opened HeapMemory
  import Heap

  /** A range in a client's hands: where it starts, the length asked for, and its bytes (with the rounding). */
  datatype Chunk = Chunk(start: nat, len: nat, bytes: seq<Byte>)

  function ChunkOf(b: Block): Chunk { Chunk(b.userStart, b.userLen, b.payload) }

  /** Every range currently handed out. */
  ghost function Live(bs: seq<Block>): set<Chunk> {
    set i | 0 <= i < |bs| && bs[i].inUse :: ChunkOf(bs[i])
  }

  /** Live ranges are 8-aligned, inside the pool, and at least a header and a tail apart. */
  lemma {:induction false} LiveDisjoint(bs: seq<Block>, lo: nat, hi: nat, c: Chunk, d: Chunk)
    requires WellFormed(bs, lo, hi) && c in Live(bs) && d in Live(bs)
    ensures c.start % 8 == 0 && lo + HEADER <= c.start && c.start + |c.bytes| + TAIL <= hi
    ensures 1 <= c.len <= |c.bytes| <= Align8(c.len) + OVERHEAD
    ensures c == d || c.start + |c.bytes| + OVERHEAD <= d.start || d.start + |d.bytes| + OVERHEAD <= c.start
  {
    var i :| 0 <= i < |bs| && bs[i].inUse && ChunkOf(bs[i]) == c;
    var j :| 0 <= j < |bs| && bs[j].inUse && ChunkOf(bs[j]) == d;
    UsedGood(bs[i]);
    UsedGood(bs[j]);
    hide Good, Align8, Live, NoFreeNeighbours;
    BeforeEnd(bs, lo, hi, i);
    if i < j { Ordered(bs, i, j); } else if j < i { Ordered(bs, j, i); }
  }

  lemma UsedGood(b: Block)
    requires Good(b) && b.inUse
    ensures b.userStart % 8 == 0 && b.userStart == b.addr + HEADER
    ensures 1 <= b.userLen <= |b.payload| <= Align8(b.userLen) + OVERHEAD
  {
  }

  /** Swapping blocks l..r for blocks `cs` changes the live ranges accordingly. */
  lemma {:induction false} LiveReplace(bs: seq<Block>, l: nat, r: nat, cs: seq<Block>, gone: set<Chunk>, come: set<Chunk>)
    requires l <= r <= |bs|
    requires gone == Live(bs[l..r]) && come == Live(cs)
    requires forall k :: 0 <= k < |bs| && !(l <= k < r) && bs[k].inUse ==> ChunkOf(bs[k]) !in gone
    ensures Live(bs[..l] + cs + bs[r..]) == Live(bs) - gone + come
  {
    var rs := bs[..l] + cs + bs[r..];
    forall c ensures c in Live(rs) <==> c in Live(bs) - gone + come {
      if c in Live(rs) {
        var k :| 0 <= k < |rs| && rs[k].inUse && ChunkOf(rs[k]) == c;
        if k < l {
          assert bs[k] == rs[k];
        } else if k < l + |cs| {
          assert cs[k - l] == rs[k];
        } else {
          assert bs[k - l - |cs| + r] == rs[k];
        }
      }
      if c in come {
        var k :| 0 <= k < |cs| && cs[k].inUse && ChunkOf(cs[k]) == c;
        assert rs[l + k] == cs[k];
      } else if c in Live(bs) && c !in gone {
        var k :| 0 <= k < |bs| && bs[k].inUse && ChunkOf(bs[k]) == c;
        if k < l {
          assert rs[k] == bs[k];
        } else if k >= r {
          assert rs[k - r + l + |cs|] == bs[k];
        } else {
          assert bs[l..r][k - l] == bs[k];
        }
      }
    }
  }

  lemma {:induction false} LiveNone(bs: seq<Block>)
    requires AllFree(bs)
    ensures Live(bs) == {}
  {
  }

  /** Merging free blocks leaves every live range alone. */
  lemma {:induction false} LiveCoalesce(bs: seq<Block>, i: nat)
    requires i < |bs| && !bs[i].inUse && Spans(bs, RunStart(bs, i), RunEnd(bs, i))
    ensures Live(Coalesce(bs, i)) == Live(bs)
  {
    RunFree(bs, i);
    hide RunStart, RunEnd;
    var l, r := RunStart(bs, i), RunEnd(bs, i);
    var b := FreeBlock(bs[l].addr, bs[r].End() - bs[l].addr);
    hide Live, Spans;
    LiveSwapFree(bs, l, r + 1, [b]);
  }

  lemma LiveSwapFree(bs: seq<Block>, l: nat, r: nat, cs: seq<Block>)
    requires l <= r <= |bs| && AllFree(bs[l..r]) && AllFree(cs)
    ensures Live(bs[..l] + cs + bs[r..]) == Live(bs)
  {
    LiveNone(bs[l..r]);
    LiveNone(cs);
    hide Live, AllFree;
    LiveReplace(bs, l, r, cs, {}, {});
  }

  lemma {:induction false} LiveGrow(bs: seq<Block>)
    requires |bs| > 0 && Contiguous(bs)
    ensures Live(Grow(bs)) == Live(bs)
  {
    ExtendedSpans(bs);
    var es := Extended(bs);
    LiveCoalesce(es, |bs|);
    LiveNone([]);
    LiveNone([es[|bs|]]);
    LiveReplace(bs, |bs|, |bs|, [es[|bs|]], {}, {});
    assert bs[..|bs|] + [es[|bs|]] + bs[|bs|..] == es;
  }

  lemma {:induction false} LivePlace(bs: seq<Block>, lo: nat, hi: nat, i: nat, size: nat)
    requires WellFormed(bs, lo, hi) && i < |bs| && size > 0 && FitsRequest(bs[i], Align8(size))
    ensures var c := Chunk(bs[i].addr + HEADER, size, Carve(bs[i], Align8(size), size)[0].payload);
            Live(Place(bs, i, Align8(size), size)) == Live(bs) + {c}
    ensures Carve(bs[i], Align8(size), size)[0].payload == Zeros(|Carve(bs[i], Align8(size), size)[0].payload|)
  {
    var n := Align8(size);
    var cs := Carve(bs[i], n, size);
    var c := ChunkOf(cs[0]);
    assert Good(bs[i]);
    LiveNone(bs[i..i + 1]);
    assert Live(cs) == {c} by {
      forall d | d in Live(cs) ensures d == c {
        var k :| 0 <= k < |cs| && cs[k].inUse && ChunkOf(cs[k]) == d;
      }
      assert c in Live(cs);
    }
    LiveReplace(bs, i, i + 1, cs, {}, {c});
  }

  /** kmalloc adds one all-zero range and touches no other, whether or not the pool grows. */
  lemma {:induction false} AllocateLive(bs: seq<Block>, lo: nat, hi: nat, limit: nat, size: nat) returns (c: Chunk)
    requires WellFormed(bs, lo, hi) && size > 0 && hi - lo <= limit
    ensures var r := Allocate(bs, lo, hi, limit, size);
            if r.ptr == 0 then Live(r.blocks) == Live(bs)
            else c.start == r.ptr && c.len == size && c.bytes == Zeros(|c.bytes|) && Live(r.blocks) == Live(bs) + {c}
    ensures forall d :: d in Live(bs) && Allocate(bs, lo, hi, limit, size).ptr != 0 ==> d.start != c.start
    decreases limit - (hi - lo)
  {
    hide Good, Place, Grow, Carve, NoFreeNeighbours;
    var r := Allocate(bs, lo, hi, limit, size);
    var i := FirstFit(bs, Align8(size), 0);
    c := Chunk(0, 0, []);
    if i < |bs| {
      LivePlace(bs, lo, hi, i, size);
      c := Chunk(bs[i].addr + HEADER, size, Carve(bs[i], Align8(size), size)[0].payload);
      forall d | d in Live(bs) ensures d.start != c.start {
        NotAtFreeBlock(bs, lo, hi, i, d);
      }
    } else {
      GrowKeeps(bs, lo, hi);
      LiveGrow(bs);
      if 2 * (hi - lo) <= limit {
        c := AllocateLive(Grow(bs), lo, hi + (hi - lo), limit, size);
      }
    }
  }

  lemma {:induction false} NotAtFreeBlock(bs: seq<Block>, lo: nat, hi: nat, i: nat, d: Chunk)
    requires WellFormed(bs, lo, hi) && i < |bs| && !bs[i].inUse && d in Live(bs)
    ensures d.start != bs[i].addr + HEADER
  {
    var k :| 0 <= k < |bs| && bs[k].inUse && ChunkOf(bs[k]) == d;
    assert Good(bs[k]);
    if k < i { Ordered(bs, k, i); } else { Ordered(bs, i, k); }
  }

  lemma StartsDiffer(bs: seq<Block>, lo: nat, hi: nat, i: nat, k: nat)
    requires WellFormed(bs, lo, hi) && i < |bs| && k < |bs| && i != k && bs[i].inUse && bs[k].inUse
    ensures bs[i].userStart != bs[k].userStart
  {
    UsedGood(bs[i]);
    UsedGood(bs[k]);
    hide Good;
    if k < i { Ordered(bs, k, i); } else { Ordered(bs, i, k); }
  }

  /** kfree removes exactly the range it is given. */
  lemma {:induction false} ReleaseLive(bs: seq<Block>, lo: nat, hi: nat, i: nat)
    requires WellFormed(bs, lo, hi) && i < |bs| && bs[i].inUse
    ensures ChunkOf(bs[i]) in Live(bs)
    ensures Live(Release(bs, i)) == Live(bs) - {ChunkOf(bs[i])}
  {
    hide Good, Live, NoFreeNeighbours, Contiguous, Coalesce, RunStart, RunEnd;
    var ms, c := MarkFree(bs, i), ChunkOf(bs[i]);
    MarkFreeSpans(bs, i);
    LiveCoalesce(ms, i);
    assert ms == bs[..i] + [ms[i]] + bs[i + 1..];
    assert bs[i..i + 1] == [bs[i]];
    LiveOne(bs[i]);
    LiveOne(ms[i]);
    LiveAt(bs, i);
    forall k | 0 <= k < |bs| && k != i && bs[k].inUse ensures ChunkOf(bs[k]) != c {
      StartsDiffer(bs, lo, hi, i, k);
    }
    LiveReplace(bs, i, i + 1, [ms[i]], {c}, {});
  }

  lemma LiveAt(bs: seq<Block>, i: nat)
    requires i < |bs| && bs[i].inUse
    ensures ChunkOf(bs[i]) in Live(bs)
  {
  }

  lemma LiveOne(b: Block)
    ensures Live([b]) == if b.inUse then {ChunkOf(b)} else {}
  {
    if b.inUse { LiveAt([b], 0); }
  }

  /** Writing through one range leaves all the others alone. */
  lemma {:induction false} PokeLive(bs: seq<Block>, lo: nat, hi: nat, i: nat, k: nat, v: Byte)
    requires WellFormed(bs, lo, hi) && i < |bs| && bs[i].inUse && k < |bs[i].payload|
    ensures var c := ChunkOf(bs[i]);
            Live(Poke(bs, i, k, v)) == Live(bs) - {c} + {c.(bytes := c.bytes[k := v])}
  {
    var c := ChunkOf(bs[i]);
    var b := bs[i].(payload := bs[i].payload[k := v]);
    assert Poke(bs, i, k, v) == bs[..i] + [b] + bs[i + 1..];
    assert bs[i..i + 1] == [bs[i]];
    LiveOne(bs[i]);
    LiveOne(b);
    hide Good, Live, NoFreeNeighbours, Contiguous;
    forall j | 0 <= j < |bs| && j != i && bs[j].inUse ensures ChunkOf(bs[j]) != c {
      StartsDiffer(bs, lo, hi, i, j);
    }
    LiveReplace(bs, i, i + 1, [b], {c}, {ChunkOf(b)});
  }

  // ---------------------------------------------------------------------------------------
  // Giving a request back

  /**
   * When some free block already fits, allocating, overwriting the whole payload with any
   * bytes, and freeing gives back the very same list of blocks.
   */
  lemma {:induction false} AllocFreeRestores(bs: seq<Block>, lo: nat, hi: nat, size: nat, data: seq<Byte>)
    requires WellFormed(bs, lo, hi) && size > 0
    requires FirstFit(bs, Align8(size), 0) < |bs|
    requires var i := FirstFit(bs, Align8(size), 0); |data| == |Carve(bs[i], Align8(size), size)[0].payload|
    ensures var i := FirstFit(bs, Align8(size), 0);
            var ps := Place(bs, i, Align8(size), size);
            var qs := ps[i := ps[i].(payload := data)];
            WellFormed(qs, lo, hi) && Release(qs, i) == bs
  {
    hide NoFreeNeighbours, Carve, Place, FreeBlock, RunStart, RunEnd, Align8, Contiguous, Coalesce, MarkFree;
    var n := Align8(size);
    var i := FirstFit(bs, n, 0);
    PlaceKeeps(bs, lo, hi, i, size);
    PlacedBlock(bs, lo, hi, i, size);
    assert Good(bs[i]);
    hide Good;
    CarvedAndFreed(bs[i], n, size, data);
    var ps := Place(bs, i, n, size);
    var qs := ps[i := ps[i].(payload := data)];
    OverwriteKeeps(ps, lo, hi, i, data);
    MarkFreeSpans(qs, i);
    UsedAround(bs, i);
    PlacedAndFreed(bs, i, n, size, data);
    Rejoined(bs, MarkFree(qs, i), i, |Carve(bs[i], n, size)| - 1);
  }

  /** The list after a request was placed in block `i`, its payload overwritten, and the block marked free again. */
  lemma {:induction false} PlacedAndFreed(bs: seq<Block>, i: nat, n: nat, size: nat, data: seq<Byte>)
    requires i < |bs|
    ensures var ps, cs := Place(bs, i, n, size), Carve(bs[i], n, size);
            var ms := MarkFree(ps[i := ps[i].(payload := data)], i);
            && |ms| == |bs| + |cs| - 1
            && (forall k :: 0 <= k < i ==> ms[k] == bs[k])
            && (forall k :: i + |cs| - 1 < k < |ms| ==> ms[k] == bs[k - (|cs| - 1)])
            && ms[i] == cs[0].(payload := data, inUse := false)
            && (|cs| > 1 ==> ms[i + |cs| - 1] == cs[|cs| - 1])
  {
    hide FreeBlock;
  }

  /** The pieces of a carved block, the first one marked free again, join up to the original. */
  lemma {:induction false} CarvedAndFreed(b: Block, n: nat, size: nat, data: seq<Byte>)
    requires Good(b) && FitsRequest(b, n)
    requires |data| == |Carve(b, n, size)[0].payload|
    ensures var cs := Carve(b, n, size);
            var c := cs[0].(payload := data, inUse := false);
            var e := |cs| - 1;
            && e <= 1 && (e == 1 ==> !cs[1].inUse)
            && c.addr == b.addr
            && b == FreeBlock(c.addr, (if e == 0 then c.End() else cs[1].End()) - c.addr)
  {
  }

  /** If merging around `i` swallows exactly the pieces of old block `i`, the old list is back. */
  lemma {:induction false} Rejoined(bs: seq<Block>, ms: seq<Block>, i: nat, e: nat)
    requires i < |bs| && e <= 1 && |ms| == |bs| + e
    requires forall k :: 0 <= k < i ==> ms[k] == bs[k]
    requires forall k :: i + e < k < |ms| ==> ms[k] == bs[k - e]
    requires !ms[i].inUse && !ms[i + e].inUse
    requires i > 0 ==> bs[i - 1].inUse
    requires i + 1 < |bs| ==> bs[i + 1].inUse
    requires ms[i].addr + OVERHEAD <= ms[i + e].End()
    requires bs[i] == FreeBlock(ms[i].addr, ms[i + e].End() - ms[i].addr)
    ensures Spans(ms, RunStart(ms, i), RunEnd(ms, i)) && Coalesce(ms, i) == bs
  {
    hide FreeBlock, RunStart, RunEnd;
    if i > 0 { assert ms[i - 1] == bs[i - 1]; }
    if i + e + 1 < |ms| { assert ms[i + e + 1] == bs[i + 1]; }
    RunIs(ms, i, i, i + e);
    SamePieces(bs, ms, i, e);
  }

  lemma SamePieces(bs: seq<Block>, ms: seq<Block>, i: nat, e: nat)
    requires i < |bs| && |ms| == |bs| + e
    requires forall k :: 0 <= k < i ==> ms[k] == bs[k]
    requires forall k :: i + e < k < |ms| ==> ms[k] == bs[k - e]
    ensures ms[..i] + [bs[i]] + ms[i + e + 1..] == bs
  {
    assert ms[..i] == bs[..i] && ms[i + e + 1..] == bs[i + 1..];
    assert bs == bs[..i] + [bs[i]] + bs[i + 1..];
  }

  lemma {:induction false} UsedAround(bs: seq<Block>, i: nat)
    requires NoFreeNeighbours(bs) && i < |bs| && !bs[i].inUse
    ensures i > 0 ==> bs[i - 1].inUse
    ensures i + 1 < |bs| ==> bs[i + 1].inUse
  {
    if i > 0 {
      var j := i - 1;
      assert bs[j + 1] == bs[i];
    }
  }

  lemma {:induction false} OverwriteKeeps(bs: seq<Block>, lo: nat, hi: nat, i: nat, data: seq<Byte>)
    requires WellFormed(bs, lo, hi) && i < |bs| && bs[i].inUse && |data| == |bs[i].payload|
    ensures WellFormed(bs[i := bs[i].(payload := data)], lo, hi)
  {
    var ps := bs[i := bs[i].(payload := data)];
    assert Good(bs[i]) && Good(ps[i]);
    hide Good;
    assert forall j :: 0 <= j < |ps| ==> ps[j].addr == bs[j].addr && ps[j].End() == bs[j].End() && ps[j].inUse == bs[j].inUse;
    forall j | 0 <= j < |ps| - 1 ensures ps[j].End() == ps[j + 1].addr && (ps[j].inUse || ps[j + 1].inUse) {
      assert bs[j].End() == bs[j + 1].addr && (bs[j].inUse || bs[j + 1].inUse);
    }
  }

  /** After a release, the header the pointer refers to no longer looks like a block in use, even if a merge absorbed it. */
  lemma {:induction false} FreedTwice(m: seq<Byte>, bs: seq<Block>, lo: nat, hi: nat, i: nat)
    requires WellFormed(bs, lo, hi) && i < |bs| && bs[i].inUse
    requires lo <= bs[i].addr && bs[i].End() <= lo + |m|
    requires AllStored(m, lo, Release(bs, i))
    ensures !HeaderOk(m, bs[i].addr - lo)
    ensures LiveIndex(Release(bs, i), bs[i].userStart, 0) == |Release(bs, i)|
  {
    hide Good, NoFreeNeighbours, Contiguous, LiveIndex, AllStored, Stored, HeaderOk, RunStart, RunEnd, Coalesce,
         FreeBlock, MarkFree;
    NoLongerLive(bs, lo, hi, i);
    var b := Swallowing(bs, lo, hi, i);
    StoredIn(m, lo, Release(bs, i), b);
    AbsorbedHeader(m, lo, b, bs[i].addr);
  }

  /** The free block a release leaves where block `i` was: `i` begins with it, or lies inside it. */
  lemma {:induction false} Swallowing(bs: seq<Block>, lo: nat, hi: nat, i: nat) returns (b: Block)
    requires WellFormed(bs, lo, hi) && i < |bs| && bs[i].inUse
    ensures b in Release(bs, i) && !b.inUse && b.payload == Zeros(|b.payload|)
    ensures bs[i].addr == b.addr || (b.addr + HEADER <= bs[i].addr && bs[i].addr + 4 <= b.End() - TAIL)
  {
    var ms := MarkFree(bs, i);
    MarkFreeSpans(bs, i);
    hide NoFreeNeighbours, Good, RunStart, RunEnd;
    var l, r := RunStart(ms, i), RunEnd(ms, i);
    RunAround(ms, i);
    if i < r { Ordered(ms, i, r); }
    if l < i { Ordered(ms, l, i); }
    b := FreeBlock(ms[l].addr, ms[r].End() - ms[l].addr);
    assert Release(bs, i)[l] == b;
  }

  /** In a stored free block, neither its own header nor any eight bytes of its payload look like a used header. */
  lemma {:induction false} AbsorbedHeader(m: seq<Byte>, lo: nat, b: Block, a: nat)
    requires Stored(m, lo, b) && !b.inUse && b.payload == Zeros(|b.payload|)
    requires a == b.addr || (b.addr + HEADER <= a && a + 4 <= b.End() - TAIL)
    requires a + 8 <= lo + |m|
    ensures !HeaderOk(m, a - lo)
  {
    if a != b.addr {
      ZeroInside(m, b.addr - lo + HEADER, |b.payload|, a - lo);
    }
  }

  lemma {:induction false} ZeroInside(m: seq<Byte>, p: nat, n: nat, o: nat)
    requires p <= o && o + 4 <= p + n <= |m| && m[p..p + n] == Zeros(n)
    ensures Load(m, o, 4) == 0
  {
    assert forall k :: o <= k < o + 4 ==> m[k] == m[p..p + n][k - p];
    DecodeZeros(m[o..o + 4]);
  }

  lemma {:induction false} NoLongerLive(bs: seq<Block>, lo: nat, hi: nat, i: nat)
    requires WellFormed(bs, lo, hi) && i < |bs| && bs[i].inUse
    ensures LiveIndex(Release(bs, i), bs[i].userStart, 0) == |Release(bs, i)|
  {
    ReleaseLive(bs, lo, hi, i);
    var rs := Release(bs, i);
    var c := ChunkOf(bs[i]);
    var j := LiveIndex(rs, bs[i].userStart, 0);
    if j < |rs| {
      assert ChunkOf(rs[j]) in Live(rs);
      LiveDisjoint(bs, lo, hi, ChunkOf(rs[j]), c);
      assert false;
    }
  }

  /**
   * The same on the real pool: kmalloc, any bytes written from the start of the range on, up to the last
   * byte of its slack, kfree; memory is back byte for byte.
   */
  method AllocFillFree(pool: Heap.MemPool, size: nat, data: seq<Byte>)
    requires pool.Valid() && 0 < size <= Heap.U64 - 8
    requires var i := FirstFit(pool.blocks, Align8(size), 0);
             i < |pool.blocks| && |data| <= |Carve(pool.blocks[i], Align8(size), size)[0].payload|
    modifies pool, pool.mem
    ensures pool.Valid()
    ensures pool.blocks == old(pool.blocks) && pool.end == old(pool.end) && pool.totalLength == old(pool.totalLength)
    ensures pool.mem[..pool.end - pool.start] == old(pool.mem[..pool.end - pool.start])
  {
    hide AllStored, Good, NoFreeNeighbours, Carve, Place, FirstFit, LiveIndex, TotalUser, Release, Allocate, HeaderOk;
    ghost var bs, lo, hi, m := pool.blocks, pool.start, pool.end, pool.mem[..];
    ghost var n := Align8(size);
    ghost var i := FirstFit(bs, n, 0);
    ghost var ps := Place(bs, i, n, size);
    FirstFits(bs, n);
    AllocatesHere(bs, lo, hi, Heap.MEM_POOL_SIZE, size);
    PlaceKeeps(bs, lo, hi, i, size);
    PlacedBlock(bs, lo, hi, i, size);
    var ptr := pool.AllocMem(size);
    SameEnd(ps, lo, hi, pool.end);
    ghost var p := ps[i].payload;
    assert p == data[..0] + p[0..] && ps[i := ps[i].(payload := p)] == ps;
    hide Align8;
    for k := 0 to |data|
      invariant pool.Valid() && pool.start == lo && pool.end == hi
      invariant pool.blocks == ps[i := ps[i].(payload := data[..k] + p[k..])]
    {
      Overwritten(p, data, k);
      pool.WriteUser(ptr, k, data[k], i);
    }
    AllocFreeRestores(bs, lo, hi, size, data[..|data|] + p[|data|..]);
    OnlyOne(pool.blocks, lo, hi, i);
    pool.LiveHeader(i);
    pool.FreeMem(ptr);
    ImageDetermined(m, pool.mem[..], bs, lo, hi);
  }

  lemma FirstFits(bs: seq<Block>, n: nat)
    ensures FirstFit(bs, n, 0) < |bs| ==> FitsRequest(bs[FirstFit(bs, n, 0)], n)
  {
  }

  lemma AllocatesHere(bs: seq<Block>, lo: nat, hi: nat, limit: nat, size: nat)
    requires WellFormed(bs, lo, hi) && size > 0 && FirstFit(bs, Align8(size), 0) < |bs|
    ensures var i := FirstFit(bs, Align8(size), 0);
            Allocate(bs, lo, hi, limit, size) == Allocation(Place(bs, i, Align8(size), size), bs[i].addr + HEADER)
  {
  }

  /** kfree twice in a row is kfree once: the second call changes nothing, wherever the header went. */
  method FreeTwice(pool: Heap.MemPool, ptr: nat, ghost i: nat)
    requires pool.Valid() && i < |pool.blocks| && Hands(pool.blocks[i], ptr)
    modifies pool, pool.mem
    ensures pool.Valid()
    ensures pool.blocks == Release(old(pool.blocks), i) && pool.end == old(pool.end)
    ensures pool.totalLength == old(pool.totalLength) - old(pool.blocks)[i].userLen
  {
    hide AllStored, Good, NoFreeNeighbours, LiveIndex, TotalUser, HeaderOk, Coalesce, MarkFree, RunStart, RunEnd;
    ghost var bs, lo, hi := pool.blocks, pool.start, pool.end;
    OnlyOne(bs, lo, hi, i);
    BeforeEnd(bs, lo, hi, i);
    pool.LiveHeader(i);
    TotalRelease(bs, i);
    pool.FreeMem(ptr);
    FreedTwice(pool.mem[..], bs, lo, hi, i);
    pool.FreeMem(ptr);
  }

  lemma {:induction false} Overwritten(p: seq<Byte>, data: seq<Byte>, k: nat)
    requires k < |data| <= |p|
    ensures (data[..k] + p[k..])[k := data[k]] == data[..k + 1] + p[k + 1..]
  {
  }

  lemma {:induction false} SameEnd(bs: seq<Block>, lo: nat, hi: nat, hi': nat)
    requires Tiles(bs, lo, hi) && Tiles(bs, lo, hi')
    ensures hi == hi'
  {
  }

  lemma {:induction false} PlacedBlock(bs: seq<Block>, lo: nat, hi: nat, i: nat, size: nat)
    requires WellFormed(bs, lo, hi) && i < |bs| && size > 0 && FitsRequest(bs[i], Align8(size))
    ensures var ps := Place(bs, i, Align8(size), size);
            i < |ps| && ps[i] == Carve(bs[i], Align8(size), size)[0]
            && Hands(ps[i], bs[i].addr + HEADER) && |ps[i].payload| >= Align8(size)
  {
  }

  /** Only one block was handed out under a given address. */
  lemma {:induction false} OnlyOne(bs: seq<Block>, lo: nat, hi: nat, i: nat)
    requires WellFormed(bs, lo, hi) && i < |bs| && bs[i].inUse
    ensures LiveIndex(bs, bs[i].userStart, 0) == i
  {
    var j := LiveIndex(bs, bs[i].userStart, 0);
    assert Good(bs[i]);
    if j < |bs| {
      assert Good(bs[j]);
      if i < j { Ordered(bs, i, j); } else if j < i { Ordered(bs, j, i); }
    }
  }
}
