/**
 * A user address space: demand paging (kernel/isr.c, the fault branch of do_el0_sync), sys_brk,
 * and teardown (exit_mm in kernel/sched.c), with an exact account of the page pool.
 */
module AddressSpace {
  import opened Descriptor
  import opened Machine
  import opened PageTable
  import opened VmBlocks

  const MAX_BRK_ADDR := 0x0C00_0000

  // PTE_BLOCK_MEMTYPE(MT_NORMAL) | PTE_USER | PTE_BLOCK_INNER_SHARE | PTE_BLOCK_NG
  const USER_ATTRS := 0xB50
  const PTE_RDONLY := 0x80

  /** PAGE_ADDR and UPPER_PAGE_ADDR. */
  function PageAddr(a: nat): (p: nat) ensures p % PAGE_SIZE == 0 && p <= a < p + PAGE_SIZE { a / PAGE_SIZE * PAGE_SIZE }
  function UpperPageAddr(a: nat): (p: nat) ensures p % PAGE_SIZE == 0 && p < a + PAGE_SIZE && a <= p { PageAddr(a + (PAGE_SIZE - 1)) }

  /** struct task_struct and mm_struct, as far as user memory goes. */
  class Task {
    var pgDir: nat
    var mmap: seq<Vma>
    var startBrk: nat
    var brk: nat
    /** The frames of the page table, and the mapped pages that no block list records. */
    ghost var tabs: map<nat, Node>
    ghost var lost: seq<PagesBlock>
    /** Blocks of the heap area that fork recorded without mapping them, and those of them whose record was dropped. */
    ghost var stale: seq<PagesBlock>
    ghost var leaked: seq<PagesBlock>

    constructor (pgDir: nat, mmap: seq<Vma>, startBrk: nat, brk: nat, ghost tabs: map<nat, Node>, ghost stale: seq<PagesBlock>)
      ensures this.pgDir == pgDir && this.mmap == mmap && this.startBrk == startBrk && this.brk == brk
      ensures this.tabs == tabs && this.stale == stale && this.lost == [] && this.leaked == []
    {
      this.pgDir, this.mmap, this.startBrk, this.brk := pgDir, mmap, startBrk, brk;
      this.tabs, this.stale, this.lost, this.leaked := tabs, stale, [], [];
    }
  }

  predicate Covers(v: Vma, a: nat) { v.start <= a < v.end }

  /** find_vma: the first area from index `i` on that contains `a`; |vs| if none does. */
  function FindVma(vs: seq<Vma>, a: nat, i: nat): (r: nat)
    requires i <= |vs|
    ensures i <= r <= |vs|
    ensures r < |vs| ==> Covers(vs[r], a)
    ensures forall k :: i <= k < r ==> !Covers(vs[k], a)
    decreases |vs| - i
  {
    if i == |vs| then i else if Covers(vs[i], a) then i else FindVma(vs, a, i + 1)
  }

  // ---------------------------------------------------------------------------------------
  // The page account

  /** Pages in use: those of `base`, the page table's, the blocks' and the unrecorded ones, each counted once. */
  ghost predicate Ledger(used: set<nat>, base: set<nat>, tabs: map<nat, Node>, vs: seq<Vma>, lost: seq<PagesBlock>) {
    multiset(used) == multiset(base) + multiset(tabs.Keys) + OwnedPages(vs) + BlocksPages(lost)
  }

  lemma LedgerTables(used: set<nat>, base: set<nat>, tabs: map<nat, Node>, vs: seq<Vma>, lost: seq<PagesBlock>)
    requires Ledger(used, base, tabs, vs, lost)
    ensures tabs.Keys <= used && tabs.Keys !! base && base <= used
    ensures BlocksPages(lost) <= multiset(used) && OwnedPages(vs) <= multiset(used)
    ensures forall f :: f in BlocksPages(lost) || f in OwnedPages(vs) ==> f !in tabs && f !in base
  {
    var o, l := OwnedPages(vs), BlocksPages(lost);
    assert multiset(used) == multiset(base) + multiset(tabs.Keys) + o + l;
    hide OwnedPages, BlocksPages;
    assert forall f :: multiset(used)[f] == multiset(base)[f] + multiset(tabs.Keys)[f] + o[f] + l[f];
    forall f | f in tabs ensures f in used && f !in base {
      assert f in multiset(tabs.Keys);
      assert f in multiset(used);
    }
    forall f | f in base ensures f in used {
      assert f in multiset(base);
      assert f in multiset(used);
    }
    forall f | f in l || f in o ensures f !in tabs && f !in base {
      assert multiset(used)[f] <= 1;
      assert f in tabs ==> multiset(tabs.Keys)[f] == 1;
      assert f in base ==> multiset(base)[f] == 1;
    }
  }

  /** Mapping takes one page for the user and any number for tables. */
  lemma LedgerMap(u0: set<nat>, u1: set<nat>, u2: set<nat>, page: nat, t0: map<nat, Node>, t2: map<nat, Node>)
    requires page !in u0 && u1 == u0 + {page}
    requires u2 == u1 + (t2.Keys - t0.Keys) && t0.Keys <= t2.Keys && (t2.Keys - t0.Keys) !! u1
    ensures multiset(u2) + multiset(t0.Keys) == multiset(u0) + multiset(t2.Keys) + multiset{page}
  {
    var n := t2.Keys - t0.Keys;
    assert t2.Keys == t0.Keys + n;
    assert multiset(u1) == multiset(u0) + multiset{page};
    assert multiset(u2) == multiset(u1) + multiset(n);
    assert multiset(t2.Keys) == multiset(t0.Keys) + multiset(n);
  }

  // ---------------------------------------------------------------------------------------
  // The shape of an address space

  /** The area lies outside the heap region [startBrk, MAX_BRK_ADDR). */
  predicate Apart(v: Vma, startBrk: nat) { v.end <= startBrk || v.start >= MAX_BRK_ADDR }

  /**
   * One area from startBrk to brk at most (once sys_brk has run and brk > startBrk); others that start
   * there are empty leftovers; everything else lies outside the heap region.
   */
  ghost predicate Layout(vs: seq<Vma>, startBrk: nat, brk: nat) {
    && startBrk % PAGE_SIZE == 0 && PAGE_SIZE <= startBrk <= brk <= MAX_BRK_ADDR && startBrk < MAX_BRK_ADDR
    && (forall k :: 0 <= k < |vs| ==>
          if k == FindVma(vs, startBrk, 0) then vs[k].start == startBrk && vs[k].end == brk && !vs[k].shared && vs[k].lma == NO_LMA
          else Apart(vs[k], startBrk) || (vs[k].start == vs[k].end == startBrk && vs[k].blocks == [] && !vs[k].shared && vs[k].lma == NO_LMA))
    && (forall k :: 0 <= k < |vs| ==> PAGE_SIZE <= vs[k].start && vs[k].end <= VA_LIMIT && (vs[k].shared ==> vs[k].lma != NO_LMA))
  }

  /** Areas with a load address are fully mapped. */
  ghost predicate LoadedMapped(ram: Ram, root: nat, vs: seq<Vma>) {
    forall k, a: nat :: 0 <= k < |vs| && vs[k].lma != NO_LMA && Covers(vs[k], a) ==> LeafEntry(ram, root, a) != 0
  }

  /** The block list of the heap area; empty while there is no such area. */
  ghost function HeapList(vs: seq<Vma>, startBrk: nat): seq<PagesBlock> {
    if FindVma(vs, startBrk, 0) < |vs| then vs[FindVma(vs, startBrk, 0)].blocks else []
  }

  /** The blocks of the heap area whose pages are mapped, recorded and lost: all but the `stale` ones at the front. */
  ghost function MappedBlocks(vs: seq<Vma>, startBrk: nat, stale: seq<PagesBlock>, lost: seq<PagesBlock>): seq<PagesBlock> {
    var bs := HeapList(vs, startBrk);
    (if |stale| <= |bs| then bs[|stale|..] else []) + lost
  }

  /**
   * Over [lo, hi) the blocks `bs` are the graph of the page table: a page is mapped exactly when
   * it has a block, to that block's frame, and has only one.
   */
  ghost predicate GraphOn(ram: Ram, root: nat, bs: seq<PagesBlock>, lo: nat, hi: nat) {
    && (forall p: nat :: p % PAGE_SIZE == 0 && lo <= p < hi && LeafEntry(ram, root, p) != 0 ==> HasBlock(bs, p))
    && (forall b :: b in bs && InRange(b, lo, hi) ==>
          && b.userVirtAddr % PAGE_SIZE == 0 && b.order == 0 && LeafEntry(ram, root, b.userVirtAddr) != 0
          && Next(LeafEntry(ram, root, b.userVirtAddr)) == b.linearAddr)
    && DistinctIn(bs, lo, hi)
  }

  ghost predicate HasBlock(bs: seq<PagesBlock>, p: nat) { exists b :: b in bs && b.userVirtAddr == p }

  /** Every heap page that has a block lies below the rounded break. */
  ghost predicate BelowBrk(bs: seq<PagesBlock>, startBrk: nat, brk: nat) {
    forall b :: b in bs && InRange(b, startBrk, MAX_BRK_ADDR) ==> b.userVirtAddr < UpperPageAddr(brk)
  }

  /** The heap area lists pages of the heap region only. */
  ghost predicate HeapInside(vs: seq<Vma>, startBrk: nat) {
    var i := FindVma(vs, startBrk, 0);
    i < |vs| ==> forall b :: b in vs[i].blocks ==> InRange(b, startBrk, MAX_BRK_ADDR)
  }

  /** Everything that holds of an address space between two events. */
  ghost predicate SpaceOk(m: PageMemory, t: Task, base: set<nat>)
    reads m, m.usage, t
  {
    && m.Valid()
    && TreeOk(m.ram, t.pgDir, t.tabs)
    && Ledger(m.Used(), base, t.tabs, t.mmap, t.leaked + t.lost)
    && GoodVmas(t.mmap) && GoodBlocks(t.lost)
    && Layout(t.mmap, t.startBrk, t.brk)
    && LoadedMapped(m.ram, t.pgDir, t.mmap)
    && t.stale <= HeapList(t.mmap, t.startBrk)
    && GraphOn(m.ram, t.pgDir, MappedBlocks(t.mmap, t.startBrk, t.stale, t.lost), t.startBrk, MAX_BRK_ADDR)
    && BelowBrk(HeapList(t.mmap, t.startBrk) + t.lost, t.startBrk, t.brk)
    && HeapInside(t.mmap, t.startBrk)
  }

  // ---------------------------------------------------------------------------------------
  // Pages as addresses

  lemma AlignedSamePage(p: nat, q: nat)
    requires p % PAGE_SIZE == 0 && q % PAGE_SIZE == 0 && p < VA_LIMIT && q < VA_LIMIT && SamePage(p, q)
    ensures p == q
  {
    IndicesInjective(p, q);
  }

  /** Every address of a page has the translation of its first one. */
  lemma PageOfAddr(a: nat)
    ensures SamePage(a, PageAddr(a))
  {
    SamePageSameIndices(a, PageAddr(a));
  }

  // ---------------------------------------------------------------------------------------
  // Unmapping a range

  /** Exactly the pages of [lo, hi) lost their translation. */
  ghost predicate ClearsRange(ram: Ram, ram': Ram, root: nat, lo: nat, hi: nat) {
    forall w: nat :: w < VA_LIMIT ==> LeafEntry(ram', root, w) == (if lo <= w < hi then 0 else LeafEntry(ram, root, w))
  }

  lemma ClearsOneMore(ram: Ram, ram1: Ram, ram2: Ram, root: nat, lo: nat, p: nat)
    requires lo <= p && lo % PAGE_SIZE == 0 && p % PAGE_SIZE == 0 && p + PAGE_SIZE <= VA_LIMIT
    requires ClearsRange(ram, ram1, root, lo, p) && ClearsPage(ram1, ram2, root, p)
    ensures ClearsRange(ram, ram2, root, lo, p + PAGE_SIZE)
  {
    hide LeafEntry, SamePage;
    forall w: nat | w < VA_LIMIT
      ensures LeafEntry(ram2, root, w) == (if lo <= w < p + PAGE_SIZE then 0 else LeafEntry(ram, root, w))
    {
      InPageIff(w, p);
    }
  }

  lemma InPageIff(w: nat, p: nat)
    requires w < VA_LIMIT && p % PAGE_SIZE == 0 && p < VA_LIMIT
    ensures SamePage(w, p) <==> p <= w < p + PAGE_SIZE
  {
    PageOfAddr(w);
    hide I0, I1, I2;
    if SamePage(w, p) {
      AlignedSamePage(PageAddr(w), p);
    } else if p <= w < p + PAGE_SIZE {
      AlignedInPage(PageAddr(w), p);
    }
  }

  /**
   * unmap_user_page_mapping over a range whose mapped pages are exactly those of the blocks `bs`:
   * each of their frames is freed once, so the assert in free_pages never fires.
   */
  method UnmapUserPageMapping(m: PageMemory, pgDir: nat, virtAddr: nat, size: nat, ghost tabs: map<nat, Node>,
          ghost bs: seq<PagesBlock>)
    returns (ok: bool)
    requires m.Valid() && TreeOk(m.ram, pgDir, tabs)
    requires virtAddr % PAGE_SIZE == 0 && virtAddr + size <= VA_LIMIT
    requires forall p: nat :: p % PAGE_SIZE == 0 && virtAddr <= p < virtAddr + size ==> HasLeafTable(m.ram, pgDir, p)
    requires GraphOn(m.ram, pgDir, bs, virtAddr, virtAddr + size) && GoodBlocks(bs)
    requires BlocksPages(bs) <= multiset(m.Used())
    modifies m`ram, m.usage
    ensures m.Valid() && m.ram.Keys == old(m.ram.Keys)
    ensures ok <==> virtAddr != NULL && size % PAGE_SIZE == 0
    ensures !ok ==> m.ram == old(m.ram) && m.usage[..] == old(m.usage[..])
    ensures ok ==> TreeOk(m.ram, pgDir, tabs)
    ensures ok ==> ClearsRange(old(m.ram), m.ram, pgDir, virtAddr, virtAddr + size)
    ensures ok ==> multiset(m.Used()) == multiset(old(m.Used())) - BlocksPages(Inside(bs, virtAddr, virtAddr + size))
    ensures ok ==> forall w: nat :: HasLeafTable(m.ram, pgDir, w) == HasLeafTable(old(m.ram), pgDir, w)
    ensures forall f :: f in m.ram && f !in tabs ==> m.ram[f] == old(m.ram)[f]
  {
    hide LeafEntry, HasLeafTable, TreeOk, BlocksPages, Inside, InPool, Next, GoodBlocks, GraphOn, ClearsPage,
         ClearsRange;
    if virtAddr == NULL || size % PAGE_SIZE != 0 {
      return false;
    }
    ghost var ram0, used0 := m.ram, m.Used();
    var addr := virtAddr;
    var addrEnd := virtAddr + size;
    NothingCleared(ram0, pgDir, virtAddr, bs);
    while addr < addrEnd
      invariant addr % PAGE_SIZE == 0 && virtAddr <= addr <= addrEnd
      invariant m.Valid() && m.ram.Keys == ram0.Keys && TreeOk(m.ram, pgDir, tabs)
      invariant ClearsRange(ram0, m.ram, pgDir, virtAddr, addr)
      invariant forall w: nat :: HasLeafTable(m.ram, pgDir, w) == HasLeafTable(ram0, pgDir, w)
      invariant multiset(m.Used()) == multiset(used0) - BlocksPages(Inside(bs, virtAddr, addr))
      invariant BlocksPages(Inside(bs, virtAddr, addr)) <= multiset(used0)
      invariant forall f :: f in m.ram && f !in tabs ==> m.ram[f] == ram0[f]
    {
      ghost var ram1, used1 := m.ram, m.Used();
      FrameToFree(ram0, pgDir, bs, virtAddr, addr, addrEnd, used0, used1);
      NotYetCleared(ram0, ram1, pgDir, virtAddr, addr);
      var r := UnmapOneUserPage(m, pgDir, addr, tabs);
      ClearsOneMore(ram0, ram1, m.ram, pgDir, virtAddr, addr);
      addr := addr + PAGE_SIZE;
    }
    ok := true;
  }

  lemma NotYetCleared(ram: Ram, ram1: Ram, root: nat, lo: nat, p: nat)
    requires ClearsRange(ram, ram1, root, lo, p) && p < VA_LIMIT
    ensures LeafEntry(ram1, root, p) == LeafEntry(ram, root, p)
  {
  }

  lemma NothingCleared(ram: Ram, root: nat, lo: nat, bs: seq<PagesBlock>)
    ensures ClearsRange(ram, ram, root, lo, lo)
    ensures BlocksPages(Inside(bs, lo, lo)) == multiset{}
  {
    InsideNothing(bs, lo, lo);
  }

  /** What unmapping page `p` will free is still in use, and is the frame of the page's one block. */
  lemma FrameToFree(ram: Ram, root: nat, bs: seq<PagesBlock>, lo: nat, p: nat, hi: nat, used0: set<nat>, used1: set<nat>)
    requires GraphOn(ram, root, bs, lo, hi) && GoodBlocks(bs)
    requires lo <= p && p + PAGE_SIZE <= hi && lo % PAGE_SIZE == 0 && p % PAGE_SIZE == 0
    requires BlocksPages(bs) <= multiset(used0)
    requires multiset(used1) == multiset(used0) - BlocksPages(Inside(bs, lo, p))
    ensures BlocksPages(Inside(bs, lo, p + PAGE_SIZE)) <= multiset(used0)
    ensures LeafEntry(ram, root, p) == 0 ==> BlocksPages(Inside(bs, lo, p + PAGE_SIZE)) == BlocksPages(Inside(bs, lo, p))
    ensures LeafEntry(ram, root, p) != 0 ==>
              var f := Next(LeafEntry(ram, root, p));
              && f in used1 && InPool(f)
              && multiset(used1 - {f}) == multiset(used0) - BlocksPages(Inside(bs, lo, p + PAGE_SIZE))
  {
    hide LeafEntry, Next, InPool, Inside, BlocksPages;
    var q := p + PAGE_SIZE;
    Partition(bs, lo, q);
    InsideSplit(bs, lo, p, q);
    forall c | c in bs && InRange(c, p, q) ensures c.userVirtAddr == p {
      AlignedInPage(c.userVirtAddr, p);
    }
    if LeafEntry(ram, root, p) == 0 {
      InsideNothing(bs, p, q);
      NoBlocks();
    } else {
      var b :| b in bs && b.userVirtAddr == p;
      InsideSingle(bs, p, q, b);
      BlocksOne(b);
      OnePageBlock(b);
      var i :| 0 <= i < |bs| && bs[i] == b;
      assert GoodBlock(bs[i]);
      var f := b.linearAddr;
      var x := BlocksPages(Inside(bs, lo, p));
      assert x + multiset{f} <= multiset(used0);
      TakeOne(used0, used1, x, f);
    }
  }

  lemma NoBlocks()
    ensures BlocksPages([]) == multiset{}
  {
  }

  lemma TakeOne(used0: set<nat>, used1: set<nat>, x: multiset<nat>, f: nat)
    requires multiset(used1) == multiset(used0) - x && x + multiset{f} <= multiset(used0)
    ensures f in used1 && multiset(used1 - {f}) == multiset(used0) - (x + multiset{f})
  {
    assert multiset(used1)[f] == multiset(used0)[f] - x[f];
    assert multiset(used0)[f] >= (x + multiset{f})[f];
    assert f in multiset(used1);
    assert multiset(used1 - {f}) == multiset(used1) - multiset{f};
  }

  lemma AlignedInPage(a: nat, p: nat)
    requires a % PAGE_SIZE == 0 && p % PAGE_SIZE == 0 && p <= a < p + PAGE_SIZE
    ensures a == p
  {
  }
}
