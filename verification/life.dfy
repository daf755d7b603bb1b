/**
 * The whole life of an address space: every fault and every sys_brk (kernel/isr.c), then exit_mm
 * (kernel/sched.c), with an exact answer to what is left in the page pool.
 */
module Lives {
  import opened Machine
  import opened PageTable
  import opened VmBlocks
  import opened AddressSpace
  import opened DemandPaging
  import opened VmSetup
  import opened Brk
  import opened Exit
  import opened Arith
  import opened Descriptor

  // ---------------------------------------------------------------------------------------
  // Events and runs

  /** A page fault or a sys_brk, and whether kmalloc had memory for its record. */
  datatype Event = Fault(addr: nat, kmallocOk: bool) | SetBrk(addr: nat, kmallocOk: bool)

  /** An address space and the machine at one moment. */
  datatype Space = Space(ram: Ram, usage: seq<bool>, pgDir: nat, mmap: seq<Vma>, startBrk: nat, brk: nat, tabs: map<nat, Node>,
                         lost: seq<PagesBlock>, stale: seq<PagesBlock>, leaked: seq<PagesBlock>)

  ghost function View(m: PageMemory, t: Task): Space
    reads m, m.usage, t
  {
    Space(m.ram, m.usage[..], t.pgDir, t.mmap, t.startBrk, t.brk, t.tabs, t.lost, t.stale, t.leaked)
  }

  /** The event is in the domain: a translation fault, or a break that may be set. */
  predicate InDomain(s: Space, e: Event) { MayHappen(s.ram, s.pgDir, s.mmap, s.startBrk, s.brk, e) }

  predicate MayHappen(ram: Ram, pgDir: nat, mmap: seq<Vma>, startBrk: nat, brk: nat, e: Event) {
    match e
    case Fault(addr, _) => LeafEntry(ram, pgDir, addr) == 0
    case SetBrk(addr, _) => MayCall(ram, pgDir, mmap, startBrk, brk, addr)
  }

  /** A fault outside every area: the process is killed. */
  predicate Kills(s: Space, e: Event) { e.Fault? && FindVma(s.mmap, e.addr, 0) == |s.mmap| }

  /** The fault brought in `page`, put it on the list of its area, or lost its record if kmalloc failed. */
  ghost predicate FaultTaken(s: Space, addr: nat, kmallocOk: bool, page: nat, t: Space) {
    var i, b := FindVma(s.mmap, addr, 0), PagesBlock(PageAddr(addr), page, 0);
    && i < |s.mmap|
    && BroughtIn(s.ram, t.ram, s.pgDir, UsedSet(s.usage), addr, page)
    && s.tabs.Keys <= t.tabs.Keys && page !in t.tabs
    && UsedSet(t.usage) == UsedSet(s.usage) + {page} + (t.tabs.Keys - s.tabs.Keys)
    && t.mmap == (if kmallocOk then Recorded(s.mmap, i, b) else s.mmap)
    && t.lost == (if kmallocOk then s.lost else s.lost + [b])
  }

  /** sys_brk moved the break if it accepted the address, and on a shrink cleared exactly the pages between the rounded breaks. */
  ghost predicate BrkMoved(s: Space, addr: nat, kmallocOk: bool, t: Space) {
    var lo, hi, i := UpperPageAddr(addr), UpperPageAddr(s.brk), FindVma(s.mmap, s.startBrk, 0);
    && t.brk == (if Accepted(addr, s.startBrk) then addr else s.brk)
    && if Accepted(addr, s.startBrk) && lo < hi then
         && ClearsRange(s.ram, t.ram, s.pgDir, lo, hi)
         && t.lost == Outside(s.lost, lo, hi) && t.stale == Outside(s.stale, lo, hi)
         && t.leaked == s.leaked + Inside(s.stale, lo, hi)
         && multiset(UsedSet(t.usage)) == multiset(UsedSet(s.usage)) - BlocksPages(Inside(MappedBlocks(s.mmap, s.startBrk, s.stale, s.lost), lo, hi))
         && i < |s.mmap| && t.mmap == Settled(Trimmed(s.mmap, i, lo, hi), s.startBrk, t.brk, kmallocOk)
       else
         && t.ram == s.ram && t.usage == s.usage && t.lost == s.lost && t.stale == s.stale && t.leaked == s.leaked
         && t.mmap == Settled(s.mmap, s.startBrk, t.brk, kmallocOk)
  }

  /** What one event does; `page` is the frame a fault brought in, NULL if there was none. */
  ghost predicate Handled(s: Space, e: Event, page: nat, t: Space) {
    && t.pgDir == s.pgDir && t.startBrk == s.startBrk && t.ram.Keys == s.ram.Keys
    && (forall f :: f in t.ram && f !in t.tabs ==> t.ram[f] == s.ram[f])
    && match e
       case Fault(addr, kmallocOk) =>
         if Kills(s, e) || PoolExhausted(s.usage) then page == NULL && t == s
         else page != NULL && t.brk == s.brk && t.stale == s.stale && t.leaked == s.leaked && FaultTaken(s, addr, kmallocOk, page, t)
       case SetBrk(addr, kmallocOk) =>
         page == NULL && t.tabs == s.tabs && BrkMoved(s, addr, kmallocOk, t)
  }

  /** The first |pages| events happened, one after the other, and only the last of them may have killed the process. */
  ghost predicate IsRun(run: seq<Space>, events: seq<Event>, pages: seq<nat>) {
    && |run| == |pages| + 1 && |pages| <= |events|
    && forall k :: 0 <= k < |pages| ==> StepAt(run, events, pages, k)
  }

  ghost predicate StepAt(run: seq<Space>, events: seq<Event>, pages: seq<nat>, k: nat)
    requires k < |pages| && |run| == |pages| + 1 && |pages| <= |events|
  {
    && InDomain(run[k], events[k]) && Handled(run[k], events[k], pages[k], run[k + 1])
    && (Kills(run[k], events[k]) ==> k == |pages| - 1)
  }

  /** The process is gone: all its events happened, or the last one killed it. */
  ghost predicate Over(run: seq<Space>, events: seq<Event>, pages: seq<nat>)
    requires IsRun(run, events, pages)
  {
    |pages| == |events| || (|pages| > 0 && Kills(run[|pages| - 1], events[|pages| - 1]))
  }

  // ---------------------------------------------------------------------------------------
  // What the events say about the pages left behind

  /** The break before event `n`. */
  function BrkAt(events: seq<Event>, startBrk: nat, brk: nat, n: nat): nat
    requires n <= |events|
  {
    if n == 0 then brk
    else if events[n - 1].SetBrk? && Accepted(events[n - 1].addr, startBrk) then events[n - 1].addr
    else BrkAt(events, startBrk, brk, n - 1)
  }

  /** Event `k` is a shrink that covers page `p`. */
  predicate Covered(events: seq<Event>, startBrk: nat, brk: nat, k: nat, p: nat)
    requires k < |events|
  {
    && events[k].SetBrk? && Accepted(events[k].addr, startBrk)
    && UpperPageAddr(events[k].addr) <= p < UpperPageAddr(BrkAt(events, startBrk, brk, k))
  }

  /** A shrink among the events from `j` on, below `n`, covers page `p`. */
  predicate CoveredIn(events: seq<Event>, startBrk: nat, brk: nat, j: nat, n: nat, p: nat)
    requires n <= |events|
  {
    exists k: nat :: j <= k < n && Covered(events, startBrk, brk, k, p)
  }

  /** Event `k` is a fault whose page was mapped but not recorded, and no later shrink among the first `n` events covers it. */
  predicate LeftBehind(events: seq<Event>, pages: seq<nat>, startBrk: nat, brk: nat, n: nat, k: nat)
    requires n <= |events| && n <= |pages|
  {
    && k < n && events[k].Fault? && !events[k].kmallocOk && pages[k] != NULL
    && !CoveredIn(events, startBrk, brk, k + 1, n, PageAddr(events[k].addr))
  }

  function LostBlock(events: seq<Event>, pages: seq<nat>, k: nat): PagesBlock
    requires k < |events| && k < |pages|
  {
    PagesBlock(PageAddr(events[k].addr), pages[k], 0)
  }

  /** No shrink among the first `n` events covers the block. */
  predicate Untouched(events: seq<Event>, startBrk: nat, brk: nat, n: nat, b: PagesBlock)
    requires n <= |events|
  {
    !CoveredIn(events, startBrk, brk, 0, n, b.userVirtAddr)
  }

  /**
   * The frames nobody will free after the events of a space that was `first`: those of faults left behind and
   * of blocks that were unrecorded before and stayed so; those of stale blocks a shrink covered; those leaked before.
   */
  ghost function Leftovers(events: seq<Event>, pages: seq<nat>, first: Space): set<nat>
    requires |pages| <= |events|
  {
    (set k: nat | k < |pages| && LeftBehind(events, pages, first.startBrk, first.brk, |pages|, k) :: pages[k])
    + (set b | b in first.lost && Untouched(events, first.startBrk, first.brk, |pages|, b) :: b.linearAddr)
    + (set b | b in first.stale && !Untouched(events, first.startBrk, first.brk, |pages|, b) :: b.linearAddr)
    + (set b | b in first.leaked :: b.linearAddr)
  }

  /** There are no leftovers. */
  ghost predicate Clean(events: seq<Event>, pages: seq<nat>, first: Space)
    requires |pages| <= |events|
  {
    && (forall k: nat :: k < |pages| ==> !LeftBehind(events, pages, first.startBrk, first.brk, |pages|, k))
    && (forall b :: b in first.lost ==> !Untouched(events, first.startBrk, first.brk, |pages|, b))
    && (forall b :: b in first.stale ==> Untouched(events, first.startBrk, first.brk, |pages|, b))
    && first.leaked == []
  }

  lemma CoveredNext(events: seq<Event>, startBrk: nat, brk: nat, j: nat, n: nat, p: nat)
    requires j <= n < |events|
    ensures CoveredIn(events, startBrk, brk, j, n + 1, p) <==> CoveredIn(events, startBrk, brk, j, n, p) || Covered(events, startBrk, brk, n, p)
  {
    hide Covered;
  }

  /** The bookkeeping of a run, from its events: the break, the unrecorded blocks, the stale and the leaked ones. */
  ghost predicate Accounted(s: Space, first: Space, events: seq<Event>, pages: seq<nat>, n: nat)
    requires n <= |pages| <= |events|
  {
    && s.startBrk == first.startBrk && s.brk == BrkAt(events, first.startBrk, first.brk, n)
    && (forall b :: b in s.lost <==>
          WasLeft(events, pages, first.startBrk, first.brk, n, b) || (b in first.lost && Untouched(events, first.startBrk, first.brk, n, b)))
    && (forall b :: b in s.stale <==> b in first.stale && Untouched(events, first.startBrk, first.brk, n, b))
    && (forall b :: b in s.leaked <==> b in first.leaked || (b in first.stale && !Untouched(events, first.startBrk, first.brk, n, b)))
  }

  lemma LeftNext(events: seq<Event>, pages: seq<nat>, startBrk: nat, brk: nat, n: nat, k: nat)
    requires k <= n < |pages| <= |events|
    ensures k < n ==> (LeftBehind(events, pages, startBrk, brk, n + 1, k) <==>
                         LeftBehind(events, pages, startBrk, brk, n, k) && !Covered(events, startBrk, brk, n, PageAddr(events[k].addr)))
    ensures k == n ==> (LeftBehind(events, pages, startBrk, brk, n + 1, n) <==>
                          events[n].Fault? && !events[n].kmallocOk && pages[n] != NULL)
  {
    hide Covered, CoveredIn, PageAddr;
    if k < n {
      CoveredNext(events, startBrk, brk, k + 1, n, PageAddr(events[k].addr));
    } else {
      NothingCovers(events, startBrk, brk, n + 1, PageAddr(events[n].addr));
    }
  }

  lemma NothingCovers(events: seq<Event>, startBrk: nat, brk: nat, n: nat, p: nat)
    requires n <= |events|
    ensures !CoveredIn(events, startBrk, brk, n, n, p)
  {
  }

  /** A block that was unrecorded before event `n` and is not covered by it still is. */
  ghost predicate WasLeft(events: seq<Event>, pages: seq<nat>, startBrk: nat, brk: nat, n: nat, b: PagesBlock)
    requires n <= |pages| <= |events|
  {
    exists k: nat :: k < n && LeftBehind(events, pages, startBrk, brk, n, k) && b == LostBlock(events, pages, k)
  }

  lemma WasLeftNext(events: seq<Event>, pages: seq<nat>, startBrk: nat, brk: nat, n: nat, b: PagesBlock)
    requires n < |pages| <= |events|
    ensures WasLeft(events, pages, startBrk, brk, n + 1, b) <==>
              || (WasLeft(events, pages, startBrk, brk, n, b) && !Covered(events, startBrk, brk, n, b.userVirtAddr))
              || (events[n].Fault? && !events[n].kmallocOk && pages[n] != NULL && b == LostBlock(events, pages, n))
  {
    hide Covered, LeftBehind, PageAddr;
    if WasLeft(events, pages, startBrk, brk, n + 1, b) {
      var k: nat :| k < n + 1 && LeftBehind(events, pages, startBrk, brk, n + 1, k) && b == LostBlock(events, pages, k);
      LeftNext(events, pages, startBrk, brk, n, k);
    }
    if WasLeft(events, pages, startBrk, brk, n, b) && !Covered(events, startBrk, brk, n, b.userVirtAddr) {
      var k: nat :| k < n && LeftBehind(events, pages, startBrk, brk, n, k) && b == LostBlock(events, pages, k);
      LeftNext(events, pages, startBrk, brk, n, k);
      assert LeftBehind(events, pages, startBrk, brk, n + 1, k);
    }
    if events[n].Fault? && !events[n].kmallocOk && pages[n] != NULL && b == LostBlock(events, pages, n) {
      LeftNext(events, pages, startBrk, brk, n, n);
      assert LeftBehind(events, pages, startBrk, brk, n + 1, n);
    }
  }

  lemma BreakNext(events: seq<Event>, startBrk: nat, brk: nat, n: nat, p: nat)
    requires n < |events|
    ensures events[n].Fault? ==> !Covered(events, startBrk, brk, n, p) && BrkAt(events, startBrk, brk, n + 1) == BrkAt(events, startBrk, brk, n)
    ensures events[n].SetBrk? ==>
              && BrkAt(events, startBrk, brk, n + 1) == (if Accepted(events[n].addr, startBrk) then events[n].addr else BrkAt(events, startBrk, brk, n))
              && (Covered(events, startBrk, brk, n, p) <==>
                    Accepted(events[n].addr, startBrk) && UpperPageAddr(events[n].addr) <= p < UpperPageAddr(BrkAt(events, startBrk, brk, n)))
  {
  }

  /** One event keeps the books. */
  lemma AccountNext(s: Space, t: Space, first: Space, events: seq<Event>, pages: seq<nat>, n: nat)
    requires n < |pages| <= |events| && Accounted(s, first, events, pages, n) && Handled(s, events[n], pages[n], t)
    ensures Accounted(t, first, events, pages, n + 1)
  {
    hide Covered, CoveredIn, WasLeft, BrkAt, UpperPageAddr, PageAddr, Inside, Outside, BroughtIn, ClearsRange, Settled,
         Trimmed, Recorded, FindVma, BlocksPages, MappedBlocks, UsedSet, PoolExhausted, Accepted;
    var b0, k0 := first.startBrk, first.brk;
    BreakNext(events, b0, k0, n, 0);
    forall b: PagesBlock
      ensures b in t.lost <==> WasLeft(events, pages, b0, k0, n + 1, b) || (b in first.lost && Untouched(events, b0, k0, n + 1, b))
      ensures b in t.stale <==> b in first.stale && Untouched(events, b0, k0, n + 1, b)
      ensures b in t.leaked <==> b in first.leaked || (b in first.stale && !Untouched(events, b0, k0, n + 1, b))
    {
      BreakNext(events, b0, k0, n, b.userVirtAddr);
      WasLeftNext(events, pages, b0, k0, n, b);
      CoveredNext(events, b0, k0, 0, n, b.userVirtAddr);
      InsideOrOut(s, events[n].addr, b);
    }
  }

  lemma InsideOrOut(s: Space, addr: nat, b: PagesBlock)
    ensures var lo, hi := UpperPageAddr(addr), UpperPageAddr(s.brk);
            && (b in Outside(s.lost, lo, hi) <==> b in s.lost && !(lo <= b.userVirtAddr < hi))
            && (b in Outside(s.stale, lo, hi) <==> b in s.stale && !(lo <= b.userVirtAddr < hi))
            && (b in s.leaked + Inside(s.stale, lo, hi) <==> b in s.leaked || (b in s.stale && lo <= b.userVirtAddr < hi))
  {
  }

  /** Over a run, the books say exactly which blocks are unrecorded, stale and leaked. */
  lemma {:induction false} AccountRun(run: seq<Space>, events: seq<Event>, pages: seq<nat>, n: nat)
    requires IsRun(run, events, pages) && n <= |pages|
    ensures Accounted(run[n], run[0], events, pages, n)
  {
    hide Handled, InDomain, Kills;
    if n > 0 {
      AccountRun(run, events, pages, n - 1);
      assert StepAt(run, events, pages, n - 1);
      hide Accounted;
      AccountNext(run[n - 1], run[n], run[0], events, pages, n - 1);
    } else {
      NothingYet(events, pages, run[0]);
    }
  }

  lemma NothingYet(events: seq<Event>, pages: seq<nat>, s: Space)
    requires |pages| <= |events|
    ensures Accounted(s, s, events, pages, 0)
  {
  }

  // ---------------------------------------------------------------------------------------
  // The code, event by event

  datatype After = Continues | Killed | Hangs

  /** One event; a fault outside every area kills the process, an exhausted pool hangs the kernel. */
  method HandleEvent(m: PageMemory, t: Task, e: Event, ghost base: set<nat>) returns (next: After, page: nat)
    requires SpaceOk(m, t, base) && InDomain(View(m, t), e)
    modifies m`ram, m.usage, t`mmap, t`tabs, t`lost, t`stale, t`leaked, t`brk
    ensures m.Valid()
    ensures next != Hangs ==> SpaceOk(m, t, base) && Handled(old(View(m, t)), e, page, View(m, t))
    ensures next == Hangs ==> PoolExhausted(m.usage[..]) && e.Fault? && !PoolExhausted(old(m.usage[..]))
    ensures next == Killed <==> Kills(old(View(m, t)), e)
  {
    hide SpaceOk, LeafEntry, Recorded, Settled, Trimmed, BroughtIn, MayCall, ClearsRange, PoolExhausted, UpperPageAddr,
         PageAddr, Inside, Outside, UsedSet;
    match e {
      case Fault(addr, kmallocOk) =>
        var r;
        r, page := PageFault(m, t, addr, kmallocOk, base);
        next := if r == FaultOutcome.Stopped then Hangs else if r == NoArea then Killed else Continues;
        if r == NoArea || r == NoMemory { page := NULL; }
        if r == Mapped { PageNotNull(old(m.ram), m.ram, t.pgDir, old(m.Used()), addr, page); }
      case SetBrk(addr, kmallocOk) =>
        var r := SysBrk(m, t, addr, kmallocOk, base);
        page := NULL;
        next := Continues;
    }
    StillValid(m, t, base);
  }

  lemma PageNotNull(ram: Ram, ram': Ram, root: nat, used: set<nat>, addr: nat, page: nat)
    requires BroughtIn(ram, ram', root, used, addr, page)
    ensures page != NULL
  {
  }

  lemma StillValid(m: PageMemory, t: Task, base: set<nat>)
    ensures SpaceOk(m, t, base) ==> m.Valid()
  {
  }

  /** Frames of one-page blocks that are in use beyond `base`. */
  lemma BeyondBase(used: set<nat>, base: set<nat>, xs: seq<PagesBlock>)
    requires multiset(used) == multiset(base) + BlocksPages(xs) && forall b :: b in xs ==> b.order == 0
    ensures used == base + (set b | b in xs :: b.linearAddr) && base !! (set b | b in xs :: b.linearAddr)
    ensures used == base <==> xs == []
  {
    hide BlocksPages;
    forall f
      ensures f in used <==> f in base || exists b :: b in xs && b.linearAddr == f
      ensures f in base ==> !exists b :: b in xs && b.linearAddr == f
    {
      InBlocks(xs, f);
      assert f in used <==> multiset(used)[f] > 0;
      assert f in base <==> multiset(base)[f] > 0;
      assert multiset(used)[f] == (multiset(base) + BlocksPages(xs))[f];
    }
    if xs == [] { NoBlocks(); } else { SomethingLost(xs); }
  }

  lemma {:induction false} InBlocks(xs: seq<PagesBlock>, f: nat)
    requires forall b :: b in xs ==> b.order == 0
    ensures f in BlocksPages(xs) <==> exists b :: b in xs && b.linearAddr == f
  {
    hide BlockPages;
    if xs != [] {
      assert xs[0] in xs && xs == [xs[0]] + xs[1..];
      InBlocks(xs[1..], f);
      OnePageBlock(xs[0]);
      assert BlocksPages(xs)[f] == BlockPages(xs[0])[f] + BlocksPages(xs[1..])[f];
    }
  }

  /** A block stands for at least one page. */
  lemma SomethingLost(lost: seq<PagesBlock>)
    requires lost != []
    ensures forall u: multiset<nat> :: u != u + BlocksPages(lost)
  {
    var b := lost[0];
    assert b.linearAddr + PAGE_SIZE * 0 in Pages(b.linearAddr, Pow2(b.order));
    SubBlocks(lost, b);
    assert BlocksPages(lost)[b.linearAddr] >= BlockPages(b)[b.linearAddr] >= 1;
    forall u: multiset<nat> ensures u != u + BlocksPages(lost) {
      assert (u + BlocksPages(lost))[b.linearAddr] > u[b.linearAddr];
    }
  }

  /** Every block outside the areas' lists stands for one page. */
  predicate OnePageEach(s: Space) { forall b :: b in s.lost + s.stale + s.leaked ==> b.order == 0 }

  /** What the books call unrecorded and leaked are the leftovers. */
  lemma LeftoversAre(s: Space, first: Space, events: seq<Event>, pages: seq<nat>)
    requires |pages| <= |events| && Accounted(s, first, events, pages, |pages|) && OnePageEach(first)
    ensures (set b | b in s.leaked + s.lost :: b.linearAddr) == Leftovers(events, pages, first)
    ensures OnePageEach(s)
    ensures s.leaked + s.lost == [] <==> Clean(events, pages, first)
  {
    hide LeftBehind, Untouched, PageAddr, BrkAt;
    var n, b0, k0 := |pages|, first.startBrk, first.brk;
    var xs := s.leaked + s.lost;
    assert forall b :: b in xs <==> b in s.leaked || b in s.lost;
    assert forall b :: b in first.lost + first.stale + first.leaked <==> b in first.lost || b in first.stale || b in first.leaked;
    forall k: nat | k < n && LeftBehind(events, pages, b0, k0, n, k) ensures LostBlock(events, pages, k) in xs {
      assert WasLeft(events, pages, b0, k0, n, LostBlock(events, pages, k));
    }
    forall f ensures f in (set b | b in xs :: b.linearAddr) <==> f in Leftovers(events, pages, first) {
      if k: nat :| k < n && LeftBehind(events, pages, b0, k0, n, k) && f == pages[k] {
        assert LostBlock(events, pages, k) in xs;
      }
    }
    if xs != [] { assert xs[0] in xs; }
    if first.leaked != [] { assert first.leaked[0] in xs; }
  }

  datatype LifeOutcome = Exited | OutOfDomain | Hung | NotStarted

  /** The parts of the invariant that concern the list of areas and what is mapped. */
  ghost predicate Orderly(s: Space) {
    && Layout(s.mmap, s.startBrk, s.brk) && LoadedMapped(s.ram, s.pgDir, s.mmap)
    && HeapInside(s.mmap, s.startBrk) && BelowBrk(HeapList(s.mmap, s.startBrk) + s.lost, s.startBrk, s.brk)
  }

  lemma InOrder(m: PageMemory, t: Task, base: set<nat>)
    requires SpaceOk(m, t, base)
    ensures Orderly(View(m, t))
  {
  }

  /** The events of a process, up to the end, its death, or the first one outside the domain. `run` and `pages` are what happened. */
  method RunEvents(m: PageMemory, t: Task, events: seq<Event>, ghost base: set<nat>)
    returns (outcome: LifeOutcome, ghost run: seq<Space>, ghost pages: seq<nat>)
    requires SpaceOk(m, t, base) && t.pgDir != NULL
    modifies m`ram, m.usage, t`mmap, t`tabs, t`lost, t`stale, t`leaked, t`brk
    ensures m.Valid() && outcome != NotStarted
    ensures IsRun(run, events, pages) && run[0] == old(View(m, t))
    ensures forall k :: 0 <= k <= |pages| ==> Orderly(run[k])
    ensures outcome != Hung ==> SpaceOk(m, t, base) && run[|pages|] == View(m, t) && Keeps(old(m.ram), m.ram, base)
    ensures outcome == Exited ==> Over(run, events, pages)
    ensures outcome == OutOfDomain ==> |pages| < |events| && !Over(run, events, pages) && !InDomain(run[|pages|], events[|pages|])
    ensures outcome == Hung ==> |pages| < |events| && events[|pages|].Fault? && PoolExhausted(m.usage[..]) && !PoolExhausted(run[|pages|].usage)
  {
    hide SpaceOk, MayHappen, Handled, Kills, PoolExhausted, UsedSet, Orderly;
    StillValid(m, t, base);
    InOrder(m, t, base);
    ghost var first := View(m, t);
    run, pages := [first], [];
    var i := 0;
    var killed := false;
    while i < |events| && !killed
      invariant 0 <= i <= |events| && i == |pages| && SpaceOk(m, t, base)
      invariant t.pgDir == first.pgDir && t.startBrk == first.startBrk
      invariant IsRun(run, events, pages) && run[0] == first && run[i] == View(m, t)
      invariant killed <==> i > 0 && Kills(run[i - 1], events[i - 1])
      invariant Keeps(first.ram, m.ram, base)
      invariant forall k :: 0 <= k <= i ==> Orderly(run[k])
      decreases |events| - i
    {
      if !MayHappen(m.ram, t.pgDir, t.mmap, t.startBrk, t.brk, events[i]) {
        StillValid(m, t, base);
        return OutOfDomain, run, pages;
      }
      ghost var run0, pages0 := run, pages;
      var next, page := HandleEvent(m, t, events[i], base);
      if next == Hangs {
        return Hung, run, pages;
      }
      run, pages := run + [View(m, t)], pages + [page];
      RunGrows(run0, events, pages0, View(m, t), page);
      StepKeepsFrames(m, t, base, run0[i], events[i], page);
      InOrder(m, t, base);
      killed := next == Killed;
      i := i + 1;
    }
    StillValid(m, t, base);
    outcome := Exited;
  }

  /** An event writes no frame of `base` and none outside the pool. */
  lemma StepKeepsFrames(m: PageMemory, t: Task, base: set<nat>, s: Space, e: Event, page: nat)
    requires SpaceOk(m, t, base) && Handled(s, e, page, View(m, t))
    ensures Keeps(s.ram, m.ram, base)
  {
    LedgerTables(m.Used(), base, t.tabs, t.mmap, t.leaked + t.lost);
    forall f | f in t.tabs ensures InPool(f) { assert TableFrame(m.ram, f); }
  }

  /** exit_mm of a process: what is left of its pages are those of the blocks no list records. */
  method ExitSpace(m: PageMemory, t: Task, ghost base: set<nat>)
    requires SpaceOk(m, t, base) && t.pgDir != NULL && OnePageEach(View(m, t))
    modifies m.usage
    ensures m.Valid()
    ensures m.Used() == base + (set b | b in t.leaked + t.lost :: b.linearAddr) && base !! (set b | b in t.leaked + t.lost :: b.linearAddr)
    ensures m.Used() == base <==> t.leaked + t.lost == []
  {
    hide SpaceOk, UsedSet, OnePageEach;
    OnlyOnePages(View(m, t));
    ghost var u := m.Used();
    ExitReady(m, t, base);
    var r := ExitMm(m, t.mmap, t.pgDir, t.tabs);
    LedgerExit(u, m.Used(), base, t.tabs, t.mmap, t.leaked + t.lost);
    BeyondBase(m.Used(), base, t.leaked + t.lost);
  }

  /**
   * The events of a process, and its exit. After the exit the pages in use are those of `base` and the
   * leftovers, so the pool is as it was if and only if there are none.
   */
  method RunAndExit(m: PageMemory, t: Task, events: seq<Event>, ghost base: set<nat>)
    returns (outcome: LifeOutcome, ghost run: seq<Space>, ghost pages: seq<nat>)
    requires SpaceOk(m, t, base) && t.pgDir != NULL && OnePageEach(View(m, t))
    modifies m`ram, m.usage, t`mmap, t`tabs, t`lost, t`stale, t`leaked, t`brk
    ensures m.Valid() && outcome != NotStarted
    ensures IsRun(run, events, pages) && run[0] == old(View(m, t))
    ensures outcome == Exited ==> Over(run, events, pages) && Keeps(old(m.ram), m.ram, base)
    ensures outcome == Exited ==> m.Used() == base + Leftovers(events, pages, run[0]) && base !! Leftovers(events, pages, run[0])
    ensures outcome == Exited ==> (m.Used() == base <==> Clean(events, pages, run[0]))
    ensures outcome == OutOfDomain ==> |pages| < |events| && !Over(run, events, pages) && !InDomain(run[|pages|], events[|pages|])
    ensures outcome == Hung ==> |pages| < |events| && events[|pages|].Fault? && PoolExhausted(m.usage[..]) && !PoolExhausted(run[|pages|].usage)
  {
    hide SpaceOk, InDomain, Handled, Leftovers, Clean, Kills, PoolExhausted, UsedSet, StepAt, OnePageEach, Accounted;
    outcome, run, pages := RunEvents(m, t, events, base);
    if outcome == Exited {
      AccountRun(run, events, pages, |pages|);
      LeftoversAre(run[|pages|], run[0], events, pages);
      ExitSpace(m, t, base);
    }
  }

  lemma OnlyOnePages(s: Space)
    requires OnePageEach(s)
    ensures forall b :: b in s.leaked + s.lost ==> b.order == 0
  {
    forall b | b in s.leaked + s.lost ensures b.order == 0 { assert b in s.lost + s.stale + s.leaked; }
  }

  lemma RunGrows(run: seq<Space>, events: seq<Event>, pages: seq<nat>, t: Space, page: nat)
    requires IsRun(run, events, pages) && |pages| < |events|
    requires |pages| > 0 ==> !Kills(run[|pages| - 1], events[|pages| - 1])
    requires InDomain(run[|pages|], events[|pages|]) && Handled(run[|pages|], events[|pages|], page, t)
    ensures IsRun(run + [t], events, pages + [page])
  {
    hide Handled, InDomain, Kills;
    forall k | 0 <= k < |pages| + 1 ensures StepAt(run + [t], events, pages + [page], k) {
      if k < |pages| { assert StepAt(run, events, pages, k); }
    }
  }

  lemma ExitReady(m: PageMemory, t: Task, base: set<nat>)
    requires SpaceOk(m, t, base)
    ensures m.Valid() && GoodVmas(t.mmap) && TreeOk(m.ram, t.pgDir, t.tabs)
    ensures Ledger(m.Used(), base, t.tabs, t.mmap, t.leaked + t.lost)
    ensures OwnedPages(t.mmap) + multiset(t.tabs.Keys) <= multiset(m.Used())
  {
    LedgerOwned(m.Used(), base, t.tabs, t.mmap, t.leaked + t.lost);
  }

  // ---------------------------------------------------------------------------------------
  // From the start of a program

  /** The areas a program starts with: loaded ones outside the heap region, demand-paged ones with no pages. */
  ghost predicate InitialAreas(vs: seq<Vma>, startBrk: nat, brk: nat) {
    && AllLoadable(vs)
    && startBrk % PAGE_SIZE == 0 && PAGE_SIZE <= startBrk <= brk <= MAX_BRK_ADDR && startBrk < MAX_BRK_ADDR
    && forall k :: 0 <= k < |vs| ==>
         vs[k].blocks == [] && PAGE_SIZE <= vs[k].start && vs[k].end <= VA_LIMIT && Apart(vs[k], startBrk) && (vs[k].shared ==> Loaded(vs[k]))
  }

  lemma InitialLayout(vs: seq<Vma>, startBrk: nat, brk: nat)
    requires InitialAreas(vs, startBrk, brk)
    ensures Layout(vs, startBrk, brk) && FindVma(vs, startBrk, 0) == |vs|
  {
    forall k | 0 <= k < |vs| ensures !Covers(vs[k], startBrk) {
      assert Apart(vs[k], startBrk);
    }
  }

  /** A freshly mapped image: the loaded areas are mapped and the heap region is empty. */
  lemma FreshGraph(ram: Ram, root: nat, vs: seq<Vma>, startBrk: nat)
    requires AllLoadable(vs) && MappedFirst(ram, root, vs, |vs|)
    requires forall k :: 0 <= k < |vs| && Loaded(vs[k]) ==> Apart(vs[k], startBrk)
    ensures LoadedMapped(ram, root, vs)
    ensures GraphOn(ram, root, [], startBrk, MAX_BRK_ADDR)
  {
    hide LeafEntry, Entry, SamePage, PageCount, PageAt;
    forall k, a: nat | 0 <= k < |vs| && vs[k].lma != NO_LMA && Covers(vs[k], a) ensures LeafEntry(ram, root, a) != 0 {
      EntryAt(ram, root, vs[k], a);
    }
    forall p: nat | p % PAGE_SIZE == 0 && startBrk <= p < MAX_BRK_ADDR ensures LeafEntry(ram, root, p) == 0 {
      HeapUnmapped(ram, root, vs, startBrk, p);
    }
  }

  lemma HeapUnmapped(ram: Ram, root: nat, vs: seq<Vma>, startBrk: nat, p: nat)
    requires AllLoadable(vs) && MappedFirst(ram, root, vs, |vs|)
    requires forall k :: 0 <= k < |vs| && Loaded(vs[k]) ==> Apart(vs[k], startBrk)
    requires p % PAGE_SIZE == 0 && startBrk <= p < MAX_BRK_ADDR
    ensures LeafEntry(ram, root, p) == 0
  {
    hide LeafEntry, Entry, SamePage, PageCount, PageAt;
    if LeafEntry(ram, root, p) != 0 {
      var j, k: nat :| 0 <= j < |vs| && Loaded(vs[j]) && k < VmaPages(vs[j]) && SamePage(p, UserPage(vs[j], k));
      LoadPageGood(vs[j], k);
      AlignedSamePage(p, UserPage(vs[j], k));
      assert false;
    }
  }

  lemma InitialLedger(used: set<nat>, base: set<nat>, tabs: map<nat, Node>, vs: seq<Vma>)
    requires used == base + tabs.Keys && tabs.Keys !! base
    requires forall k :: 0 <= k < |vs| ==> vs[k].blocks == []
    ensures Ledger(used, base, tabs, vs, []) && GoodVmas(vs)
  {
    OwnedNone(vs);
    NoBlocks();
    assert multiset(used) == multiset(base) + multiset(tabs.Keys);
  }

  /** A fresh page directory with the areas of a program mapped in it; null when pages run out. */
  method CreateSpace(m: PageMemory, vs: seq<Vma>, startBrk: nat, brk: nat) returns (t: Task?)
    requires m.Valid() && InitialAreas(vs, startBrk, brk)
    modifies m`ram, m.usage
    ensures m.Valid()
    ensures t == null ==> PoolExhausted(m.usage[..])
    ensures t != null ==> fresh(t) && SpaceOk(m, t, old(m.Used())) && t.pgDir != NULL
    ensures t != null ==> t.mmap == vs && t.startBrk == startBrk && t.brk == brk && t.lost == [] && t.stale == [] && t.leaked == []
    ensures t != null ==> m.Used() == old(m.Used()) + t.tabs.Keys && MappedFirst(m.ram, t.pgDir, vs, |vs|)
    ensures t != null ==> m.ram.Keys == old(m.ram.Keys) && forall f :: f in m.ram && f in old(m.Used()) ==> m.ram[f] == old(m.ram)[f]
  {
    hide LeafEntry, HasLeafTable, TreeOk, OwnedPages, BlocksPages, GraphOn, LoadedMapped, BelowBrk, HeapInside,
         HeapList, Layout, GoodVmas, GoodBlocks, MayCall, Ledger, MappedFirst, OnlyTables, PoolExhausted,
         UpperPageAddr, FindVma, BroughtIn, Recorded;
    ghost var base := m.Used();
    var pgDir := m.GetZeroedPages(0);
    if pgDir == NULL {
      PoolDry(m.usage[..]);
      return null;
    }
    PagesOne(pgDir);
    FreshTree(m.ram, pgDir);
    ghost var tabs0 := map[pgDir := Dir];
    assert tabs0.Keys == {pgDir};
    var mapped;
    ghost var tabs, used1 := tabs0, m.Used();
    ghost var ram1 := m.ram;
    mapped, tabs := SetupUserPageMappings(m, pgDir, vs, tabs0);
    if !mapped {
      return null;
    }
    TablesOnly(ram1, m.ram, used1, m.Used(), tabs0, tabs);
    InitialLedger(m.Used(), base, tabs, vs);
    InitialLayout(vs, startBrk, brk);
    FreshGraph(m.ram, pgDir, vs, startBrk);
    NoHeapYet(vs, startBrk, brk);
    t := new Task(pgDir, vs, startBrk, brk, tabs, []);
    assert t.leaked + t.lost == [];
  }

  lemma NoHeapYet(vs: seq<Vma>, startBrk: nat, brk: nat)
    requires FindVma(vs, startBrk, 0) == |vs|
    ensures HeapList(vs, startBrk) == [] && MappedBlocks(vs, startBrk, [], []) == []
    ensures HeapInside(vs, startBrk) && BelowBrk([], startBrk, brk) && BelowBrk(HeapList(vs, startBrk) + [], startBrk, brk)
    ensures GoodBlocks([])
  {
  }

  /**
   * A program starts, takes any faults and break changes, and exits. The usage map is restored if and only if
   * every page that was mapped while kmalloc failed to record it was later covered by a shrink; the pages
   * left over are exactly the others.
   */
  method Life(m: PageMemory, vs: seq<Vma>, startBrk: nat, brk: nat, events: seq<Event>)
    returns (outcome: LifeOutcome, ghost run: seq<Space>, ghost pages: seq<nat>)
    requires m.Valid() && InitialAreas(vs, startBrk, brk)
    modifies m`ram, m.usage
    ensures m.Valid()
    ensures outcome == NotStarted || outcome == Hung ==> PoolExhausted(m.usage[..])
    ensures outcome != NotStarted ==>
              && IsRun(run, events, pages) && Started(old(m.usage[..]), vs, startBrk, brk, run[0])
    ensures outcome == Hung ==> |pages| < |events| && events[|pages|].Fault?
    ensures outcome == OutOfDomain ==> |pages| < |events| && !Over(run, events, pages) && !InDomain(run[|pages|], events[|pages|])
    ensures outcome == Exited ==> Over(run, events, pages)
    ensures outcome == Exited ==>
              m.Used() == old(m.Used()) + set k: nat | k < |pages| && LeftBehind(events, pages, startBrk, brk, |pages|, k) :: pages[k]
    ensures outcome == Exited ==>
              (m.usage[..] == old(m.usage[..]) <==>
                 forall k: nat :: k < |pages| ==> !LeftBehind(events, pages, startBrk, brk, |pages|, k))
  {
    hide SpaceOk, LeftBehind, Untouched, InDomain, Over, IsRun, MappedFirst, PoolExhausted;
    run, pages := [], [];
    ghost var u0 := m.usage[..];
    var t := CreateSpace(m, vs, startBrk, brk);
    if t == null {
      return NotStarted, run, pages;
    }
    outcome, run, pages := RunAndExit(m, t, events, UsedSet(u0));
    if outcome == Exited && m.Used() == UsedSet(u0) {
      UsedInjective(m.usage[..], u0);
    }
  }

  /** A program has just been started: its areas are mapped, and beyond the pages in use before there are its tables. */
  ghost predicate Started(u0: seq<bool>, vs: seq<Vma>, startBrk: nat, brk: nat, s: Space) {
    && s.mmap == vs && s.startBrk == startBrk && s.brk == brk && s.lost == [] && s.stale == [] && s.leaked == []
    && UsedSet(s.usage) == UsedSet(u0) + s.tabs.Keys && AllLoadable(vs) && MappedFirst(s.ram, s.pgDir, vs, |vs|)
  }
}
