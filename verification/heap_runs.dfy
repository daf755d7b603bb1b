/** Whole runs of the kernel heap: init_mm followed by any sequence of kmalloc, kfree and user writes. */
module HeapRuns {
  import opened Arith
  import opened Bytes
  import opened HeapBlocks
  import opened HeapHeaders
  import opened HeapMemory
  import opened HeapTheorems
  import Heap

  const LO := Heap.MEM_POOL_START
  const LIMIT := Heap.MEM_POOL_SIZE

  datatype Op = Alloc(size: nat) | Free(ptr: nat) | Write(ptr: nat, k: nat, v: Byte)

  /** Forty bytes, doubled `k` times. */
  ghost predicate DoubledLength(n: nat) {
    exists k: nat :: k <= 23 && n == OVERHEAD * Pow2(k)
  }

  lemma {:induction false} DoubleOnce(n: nat)
    requires DoubledLength(n) && 2 * n <= LIMIT
    ensures DoubledLength(2 * n)
  {
    var k: nat :| k <= 23 && n == OVERHEAD * Pow2(k);
    if k == 23 {
      Pow2At23();
      assert false;
    }
    assert Pow2(k + 1) == 2 * Pow2(k);
    DoubleArith(n, k);
  }

  lemma {:induction false} DoubleArith(n: nat, k: nat)
    requires n == OVERHEAD * Pow2(k)
    ensures 2 * n == OVERHEAD * Pow2(k + 1)
  {
  }

  lemma {:induction false} Pow2At23()
    ensures Pow2(23) == 0x80_0000
  {
    assert Pow2(4) == 16;
    assert Pow2(8) == 2 * (2 * (2 * (2 * Pow2(4))));
    assert Pow2(12) == 2 * (2 * (2 * (2 * Pow2(8))));
    assert Pow2(16) == 2 * (2 * (2 * (2 * Pow2(12))));
    assert Pow2(20) == 2 * (2 * (2 * (2 * Pow2(16))));
    assert Pow2(23) == 2 * (2 * (2 * Pow2(20)));
  }

  function Top(bs: seq<Block>): nat
    requires |bs| > 0
  {
    bs[|bs| - 1].End()
  }

  /** What every reachable heap satisfies. */
  ghost predicate HeapState(bs: seq<Block>) {
    && |bs| > 0
    && LO <= Top(bs)
    && WellFormed(bs, LO, Top(bs))
    && DoubledLength(Top(bs) - LO)
    && Top(bs) - LO <= LIMIT
  }

  const INITIAL := [FreeBlock(LO, OVERHEAD)]

  lemma {:induction false} InitialState()
    ensures HeapState(INITIAL)
  {
    assert OVERHEAD == OVERHEAD * Pow2(0);
  }

  lemma {:induction false} AllocateDoubles(bs: seq<Block>, hi: nat, size: nat)
    requires LO <= hi && WellFormed(bs, LO, hi) && size > 0 && hi - LO <= LIMIT && DoubledLength(hi - LO)
    ensures HeapState(Allocate(bs, LO, hi, LIMIT, size).blocks)
    decreases LIMIT - (hi - LO)
  {
    hide Good, NoFreeNeighbours, Grow, Place, DoubledLength;
    var i := FirstFit(bs, Align8(size), 0);
    GrowKeeps(bs, LO, hi);
    if i < |bs| {
      PlaceKeeps(bs, LO, hi, i, size);
    } else if 2 * (hi - LO) <= LIMIT {
      DoubleOnce(hi - LO);
      AllocateDoubles(Grow(bs), hi + (hi - LO), size);
    }
  }

  /** The block handed out as `ptr`, |bs| if there is none. */
  function Handed(bs: seq<Block>, ptr: nat): nat { LiveIndex(bs, ptr, 0) }

  /**
   * What a client may do: ask for a size that can be rounded, store inside its own ranges, and call kfree
   * with NULL, with a live pointer, or with any aligned pointer into the pool whose supposed header lies
   * outside the bytes in users' hands.
   */
  ghost predicate Legal(bs: seq<Block>, op: Op)
    requires |bs| > 0
  {
    match op
    case Alloc(size) => size <= Heap.U64 - 8
    case Free(ptr) =>
      || ptr == Heap.NULL || Handed(bs, ptr) < |bs|
      || (ptr % 8 == 0 && LO + HEADER <= ptr && ptr - HEADER + 8 <= Top(bs) && OutsidePayloads(bs, ptr - HEADER))
    case Write(ptr, k, _) => var i := Handed(bs, ptr); i < |bs| && k < |bs[i].payload|
  }

  /** One call, or one store by a client through a range it holds. */
  ghost function Step(bs: seq<Block>, op: Op): seq<Block>
    requires HeapState(bs) && Legal(bs, op)
  {
    match op
    case Alloc(size) => if size == 0 then bs else Allocate(bs, LO, Top(bs), LIMIT, size).blocks
    case Free(ptr) => var i := Handed(bs, ptr); if i < |bs| then Release(bs, i) else bs
    case Write(ptr, k, v) => Poke(bs, Handed(bs, ptr), k, v)
  }

  lemma {:induction false} StepKeeps(bs: seq<Block>, op: Op)
    requires HeapState(bs) && Legal(bs, op)
    ensures HeapState(Step(bs, op))
  {
    hide Good, NoFreeNeighbours, Allocate, Release, Poke, DoubledLength, OutsidePayloads;
    match op
    case Alloc(size) =>
      if size > 0 { AllocateDoubles(bs, Top(bs), size); }
    case Free(ptr) =>
      var i := Handed(bs, ptr);
      if i < |bs| { ReleaseKeeps(bs, LO, Top(bs), i); }
    case Write(ptr, k, v) =>
      PokeKeeps(bs, LO, Top(bs), Handed(bs, ptr), k, v);
  }

  /** Every call of the run is legal where it is made. */
  ghost predicate LegalRun(bs: seq<Block>, ops: seq<Op>)
    requires HeapState(bs)
    decreases |ops|
  {
    ops == [] ||
    (Legal(bs, ops[0]) && (StepKeeps(bs, ops[0]); LegalRun(Step(bs, ops[0]), ops[1..])))
  }

  /** The heap after a run that starts from `bs`. */
  ghost function Run(bs: seq<Block>, ops: seq<Op>): (r: seq<Block>)
    requires HeapState(bs) && LegalRun(bs, ops)
    ensures HeapState(r)
    decreases |ops|
  {
    if ops == [] then bs
    else
      StepKeeps(bs, ops[0]);
      Run(Step(bs, ops[0]), ops[1..])
  }

  /** A run that is legal after init_mm. */
  ghost predicate LegalFromBoot(ops: seq<Op>) {
    InitialState();
    LegalRun(INITIAL, ops)
  }

  /** The heap after init_mm and a run. */
  ghost function FromBoot(ops: seq<Op>): (r: seq<Block>)
    requires LegalFromBoot(ops)
    ensures HeapState(r)
  {
    InitialState();
    Run(INITIAL, ops)
  }

  /**
   * In every reachable heap: the blocks tile the pool, no two neighbours are both free, the
   * pool is 40 bytes doubled at most 23 times, live ranges are aligned, inside and disjoint.
   */
  lemma {:induction false} Reachable(ops: seq<Op>)
    requires LegalFromBoot(ops)
    ensures var bs := FromBoot(ops);
            && Tiles(bs, LO, Top(bs)) && NoFreeNeighbours(bs)
            && (forall i :: 0 <= i < |bs| ==> bs[i].Len() % 8 == 0 && bs[i].Len() >= OVERHEAD)
            && DoubledLength(Top(bs) - LO)
            && (forall c, d :: c in Live(bs) && d in Live(bs) && c != d ==>
                  c.start + |c.bytes| < d.start || d.start + |d.bytes| < c.start)
            && (forall c :: c in Live(bs) ==> c.start % 8 == 0 && LO < c.start && c.start + |c.bytes| < Top(bs))
  {
    var bs := FromBoot(ops);
    forall c, d | c in Live(bs) && d in Live(bs)
      ensures c == d || c.start + |c.bytes| < d.start || d.start + |d.bytes| < c.start
      ensures c.start % 8 == 0 && LO < c.start && c.start + |c.bytes| < Top(bs)
    {
      LiveDisjoint(bs, LO, Top(bs), c, d);
    }
    forall i | 0 <= i < |bs| ensures bs[i].Len() % 8 == 0 {
      assert Good(bs[i]);
    }
  }

  predicate Touches(op: Op, ptr: nat) {
    match op
    case Alloc(_) => false
    case Free(p) => p == ptr
    case Write(p, _, _) => p == ptr
  }

  /** One step leaves alone every range it does not name. */
  lemma {:induction false} StepFrame(bs: seq<Block>, op: Op, c: Chunk)
    requires HeapState(bs) && Legal(bs, op) && c in Live(bs) && !Touches(op, c.start)
    ensures c in Live(Step(bs, op))
  {
    hide Good, NoFreeNeighbours, Allocate, Release, Poke, DoubledLength, Live, OutsidePayloads;
    match op
    case Alloc(size) =>
      if size > 0 { var d := AllocateLive(bs, LO, Top(bs), LIMIT, size); }
    case Free(ptr) =>
      var i := Handed(bs, ptr);
      if i < |bs| { ReleaseLive(bs, LO, Top(bs), i); }
    case Write(ptr, k, v) =>
      PokeLive(bs, LO, Top(bs), Handed(bs, ptr), k, v);
  }

  /** Over a whole run, a range nobody frees or writes keeps its place, its length and every byte. */
  lemma {:induction false} RunFrame(bs: seq<Block>, ops: seq<Op>, c: Chunk)
    requires HeapState(bs) && LegalRun(bs, ops) && c in Live(bs)
    requires forall k :: 0 <= k < |ops| ==> !Touches(ops[k], c.start)
    ensures c in Live(Run(bs, ops))
    decreases |ops|
  {
    hide HeapState, Live, Step, Legal;
    if ops != [] {
      StepFrame(bs, ops[0], c);
      StepKeeps(bs, ops[0]);
      RunFrame(Step(bs, ops[0]), ops[1..], c);
    }
  }

  /** A request is refused only when no free block fits and the pool cannot double any more. */
  lemma {:induction false} RefusedOnlyWhenFull(bs: seq<Block>, hi: nat, size: nat)
    requires LO <= hi && WellFormed(bs, LO, hi) && 0 < size <= Heap.U64 - 8 && hi - LO <= LIMIT && DoubledLength(hi - LO)
    requires Allocate(bs, LO, hi, LIMIT, size).ptr == 0
    ensures var r := Allocate(bs, LO, hi, LIMIT, size).blocks;
            && HeapState(r) && Top(r) - LO == OVERHEAD * Pow2(23)
            && forall k :: 0 <= k < |r| ==> !FitsRequest(r[k], Align8(size))
    decreases LIMIT - (hi - LO)
  {
    hide Good, NoFreeNeighbours, Grow, Place;
    AllocateDoubles(bs, hi, size);
    var i := FirstFit(bs, Align8(size), 0);
    GrowKeeps(bs, LO, hi);
    if i == |bs| {
      if 2 * (hi - LO) <= LIMIT {
        DoubleOnce(hi - LO);
        RefusedOnlyWhenFull(Grow(bs), hi + (hi - LO), size);
      } else {
        LargestPool(hi - LO);
      }
    }
  }

  lemma {:induction false} LargestPool(n: nat)
    requires DoubledLength(n) && 2 * n > LIMIT
    ensures n == OVERHEAD * Pow2(23)
  {
    var k: nat :| k <= 23 && n == OVERHEAD * Pow2(k);
    assert Pow2(23) == 2 * Pow2(22);
    Pow2At23();
    if k < 23 {
      Pow2Mono(k, 22);
      assert false;
    }
  }

  // ---------------------------------------------------------------------------------------
  // The runs of the code

  /** ALIGNED_TO_8BYTES on 64-bit words. */
  function AlignWord(size: nat): nat { (size + 7) % Heap.U64 / 8 * 8 }

  /** The rounding is right if and only if it does not wrap; above, a request for almost 2^64 bytes is served with an empty payload. */
  lemma RoundsUpIff(size: nat)
    requires size < Heap.U64
    ensures AlignWord(size) == Align8(size) <==> size <= Heap.U64 - 8
    ensures size > Heap.U64 - 8 ==> AlignWord(size) == 0
  {
    if size > Heap.U64 - 8 { assert (size + 7) % Heap.U64 == size + 7 - Heap.U64; }
  }

  /** A pointer that may be passed to kfree passes its check if and only if it is live. */
  lemma CheckIffLive(m: seq<Byte>, bs: seq<Block>, ptr: nat)
    requires HeapState(bs) && Legal(bs, Free(ptr)) && ptr != Heap.NULL
    requires AllStored(m, LO, bs) && |m| == LIMIT
    ensures LO + HEADER <= ptr <= LO + LIMIT
    ensures HeaderOk(m, ptr - HEADER - LO) <==> Handed(bs, ptr) < |bs|
  {
    hide HeaderOk, DoubledLength, NoFreeNeighbours, Stored, OutsidePayloads, Contiguous;
    var i := Handed(bs, ptr);
    if i < |bs| {
      HandsIt(bs, ptr);
      UsedGood(bs[i]);
      hide Good;
      BeforeEnd(bs, LO, Top(bs), i);
      assert Stored(m, LO, bs[i]);
      LiveHeaderOk(m, LO, bs[i]);
    } else {
      PoolBound(Top(bs) - LO);
      HeaderIffLive(m, bs, LO, Top(bs), ptr - HEADER);
    }
  }

  lemma PoolBound(n: nat)
    requires DoubledLength(n)
    ensures n <= 0x1400_0000
  {
    var k: nat :| k <= 23 && n == OVERHEAD * Pow2(k);
    Pow2Mono(k, 23);
    Pow2At23();
  }

  lemma LiveHeaderOk(m: seq<Byte>, lo: nat, b: Block)
    requires Stored(m, lo, b) && b.inUse
    ensures HeaderOk(m, b.addr - lo)
  {
  }

  lemma {:induction false} WriteForgery(bs: seq<Block>, i: nat, k: nat) returns (ops: seq<Op>)
    requires HeapState(bs) && i < |bs| && bs[i].inUse && k <= 8 <= |bs[i].payload| && bs[i].payload[..k] == FORGERY[..k]
    ensures LegalRun(bs, ops)
    ensures var r := Run(bs, ops); i < |r| && r[i].inUse && r[i].userStart == bs[i].userStart && |r[i].payload| >= 8 && r[i].payload[..8] == FORGERY
    decreases 8 - k
  {
    if k == 8 {
      ops := [];
    } else {
      hide HeapState;
      var op := Write(bs[i].userStart, k, FORGERY[k]);
      Poked(bs, i, k, FORGERY[k]);
      var rest := WriteForgery(Step(bs, op), i, k + 1);
      ops := [op] + rest;
      assert ops[1..] == rest;
    }
  }

  lemma Poked(bs: seq<Block>, i: nat, k: nat, v: Byte)
    requires HeapState(bs) && i < |bs| && bs[i].inUse && k < |bs[i].payload|
    ensures |bs| > 0 && Legal(bs, Write(bs[i].userStart, k, v))
    ensures var t := Step(bs, Write(bs[i].userStart, k, v));
            && HeapState(t) && |t| == |bs| && t[i].inUse && t[i].userStart == bs[i].userStart
            && |t[i].payload| == |bs[i].payload| && t[i].payload[..k + 1] == bs[i].payload[..k] + [v]
  {
    hide Good, NoFreeNeighbours, DoubledLength;
    OnlyOne(bs, LO, Top(bs), i);
    StepKeeps(bs, Write(bs[i].userStart, k, v));
  }

  /** A pointer that was never handed out and still passes kfree's check, whatever memory holds the heap. */
  ghost predicate Forged(bs: seq<Block>, ptr: nat) {
    && |bs| > 0 && LO + HEADER <= ptr <= LO + LIMIT
    && Handed(bs, ptr) == |bs| && !Legal(bs, Free(ptr))
    && forall m: seq<Byte> :: |m| == LIMIT && AllStored(m, LO, bs) ==> HeaderOk(m, ptr - HEADER - LO)
  }

  lemma IsForged(bs: seq<Block>, i: nat)
    requires HeapState(bs) && i < |bs| && bs[i].inUse && |bs[i].payload| >= 8 && bs[i].payload[..8] == FORGERY
    ensures Forged(bs, bs[i].userStart + HEADER)
  {
    BeforeEnd(bs, LO, Top(bs), i);
    PoolBound(Top(bs) - LO);
    UsedGood(bs[i]);
    StartsAt(bs, LO, Top(bs), i, bs[i].userStart);
    assert !OutsidePayloads(bs, bs[i].userStart);
    hide HeaderOk, DoubledLength, NoFreeNeighbours, Good, AllStored, OutsidePayloads, LiveIndex;
    forall m: seq<Byte> | |m| == LIMIT && AllStored(m, LO, bs) ensures HeaderOk(m, bs[i].userStart - LO) {
      ForgedHeader(m, bs, LO, Top(bs), i);
    }
  }

  /**
   * Why kfree's domain matters: from any heap in which somebody holds eight bytes, a legal run leads to one
   * where kfree's check passes for a pointer nobody was ever given.
   */
  lemma ForgeryReachable(bs: seq<Block>, i: nat) returns (ops: seq<Op>)
    requires HeapState(bs) && i < |bs| && bs[i].inUse && |bs[i].payload| >= 8
    ensures LegalRun(bs, ops) && Forged(Run(bs, ops), bs[i].userStart + HEADER)
  {
    ops := WriteForgery(bs, i, 0);
    hide HeapState, Forged, LegalRun, Run;
    IsForged(Run(bs, ops), i);
  }

  /** One call on the pool is one step of the model. */
  method Perform(pool: Heap.MemPool, op: Op)
    requires pool.Valid() && HeapState(pool.blocks) && Legal(pool.blocks, op)
    modifies pool, pool.mem
    ensures pool.Valid() && pool.blocks == Step(old(pool.blocks), op)
  {
    hide AllStored, Good, NoFreeNeighbours, DoubledLength, OutsidePayloads, Allocate, Release, Poke, TotalUser,
         LiveIndex, HeaderOk;
    ghost var bs := pool.blocks;
    match op {
      case Alloc(size) =>
        var p := pool.AllocMem(size);
      case Free(ptr) =>
        if ptr != Heap.NULL { CheckIffLive(pool.mem[..], bs, ptr); }
        NullIsDead(bs);
        pool.FreeMem(ptr);
      case Write(ptr, k, v) =>
        HandsIt(bs, ptr);
        pool.WriteUser(ptr, k, v, Handed(bs, ptr));
    }
  }

  lemma HandsIt(bs: seq<Block>, ptr: nat)
    requires Handed(bs, ptr) < |bs|
    ensures Hands(bs[Handed(bs, ptr)], ptr)
  {
  }

  lemma NullIsDead(bs: seq<Block>)
    requires HeapState(bs)
    ensures Handed(bs, Heap.NULL) == |bs|
  {
    var i := Handed(bs, Heap.NULL);
    if i < |bs| { assert Good(bs[i]); }
  }

  /** init_mm, then any legal calls and stores in any order: the pool is the model's heap after the same run. */
  method BootAndRun(memory: array<Byte>, ops: seq<Op>) returns (pool: Heap.MemPool)
    requires memory.Length == LIMIT && LegalFromBoot(ops)
    modifies memory
    ensures fresh(pool) && pool.mem == memory
    ensures pool.Valid() && pool.blocks == FromBoot(ops)
    ensures pool.totalLength == TotalUser(FromBoot(ops))
  {
    pool := new Heap.MemPool(memory);
    InitialState();
    hide HeapState, Legal, Step;
    for k := 0 to |ops|
      invariant pool.Valid() && pool.mem == memory && fresh(pool)
      invariant HeapState(pool.blocks) && LegalRun(pool.blocks, ops[k..])
      invariant Run(pool.blocks, ops[k..]) == FromBoot(ops)
    {
      assert ops[k..][0] == ops[k] && ops[k..][1..] == ops[k + 1..];
      StepKeeps(pool.blocks, ops[k]);
      Perform(pool, ops[k]);
    }
  }
}
