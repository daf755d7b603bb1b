/** Demand faults, as they keep the account and the shape of an address space. */
module DemandPaging {
  import opened Descriptor
  import opened Machine
  import opened PageTable
  import opened VmBlocks
  import opened AddressSpace

  datatype FaultOutcome = Mapped | NoArea | NoMemory | Stopped

  function Recorded(vs: seq<Vma>, i: nat, b: PagesBlock): seq<Vma>
    requires i < |vs|
  {
    vs[i := vs[i].(blocks := vs[i].blocks + [b])]
  }

  /** find_vma looks at the bounds only. */
  lemma {:induction false} FindVmaSame(vs: seq<Vma>, ws: seq<Vma>, a: nat, i: nat)
    requires i <= |vs| == |ws|
    requires forall k :: 0 <= k < |vs| ==> vs[k].start == ws[k].start && vs[k].end == ws[k].end
    ensures FindVma(vs, a, i) == FindVma(ws, a, i)
    decreases |vs| - i
  {
    if i < |vs| { FindVmaSame(vs, ws, a, i + 1); }
  }

  /** The page of `p` was unmapped and now has entry `e`; nothing else changed. */
  ghost predicate MapsOne(ram: Ram, ram': Ram, root: nat, p: nat, e: nat) {
    && LeafEntry(ram, root, p) == 0 && LeafEntry(ram', root, p) == e
    && forall w: nat :: !SamePage(w, p) ==> LeafEntry(ram', root, w) == LeafEntry(ram, root, w)
  }

  lemma RangeOfOne(ram: Ram, ram': Ram, root: nat, virt: nat, phys: nat)
    requires GoodFrame(phys) && GoodAttrs(USER_ATTRS) && PageCount(PAGE_SIZE) == 1
    requires MapsRange(ram, ram', root, virt, phys, PageCount(PAGE_SIZE), USER_ATTRS)
    requires LeafEntry(ram, root, virt) == 0
    ensures MapsOne(ram, ram', root, virt, Entry(phys, USER_ATTRS))
  {
    hide LeafEntry, Entry, I0, I1, I2;
    assert PageAt(virt, 0) == virt && PageAt(phys, 0) == phys;
    forall w: nat | !SamePage(w, virt) ensures LeafEntry(ram', root, w) == LeafEntry(ram, root, w) {
      forall k | 0 <= k < 1 ensures !SamePage(w, PageAt(virt, k)) { assert k == 0; }
    }
  }

  lemma DistinctInsert(xs: seq<PagesBlock>, ys: seq<PagesBlock>, b: PagesBlock, lo: nat, hi: nat)
    requires DistinctIn(xs + ys, lo, hi)
    requires InRange(b, lo, hi) ==> forall c :: c in xs + ys && InRange(c, lo, hi) ==> c.userVirtAddr != b.userVirtAddr
    ensures DistinctIn(xs + [b] + ys, lo, hi)
  {
    var zs, all := xs + ys, xs + [b] + ys;
    assert forall k :: 0 <= k < |xs| ==> all[k] == zs[k];
    assert all[|xs|] == b;
    assert forall k :: |xs| < k < |all| ==> all[k] == zs[k - 1];
    forall i, j | 0 <= i < j < |all| && InRange(all[i], lo, hi) && InRange(all[j], lo, hi)
      ensures all[i].userVirtAddr != all[j].userVirtAddr
    {
      if i == |xs| {
        assert zs[j - 1] in zs;
      } else if j == |xs| {
        assert zs[i] in zs;
      }
    }
  }

  /** Recording a newly mapped page keeps the block list equal to the graph of the page table. */
  lemma GraphAdd(ram: Ram, ram': Ram, root: nat, xs: seq<PagesBlock>, ys: seq<PagesBlock>, b: PagesBlock, lo: nat,
          hi: nat, e: nat)
    requires GraphOn(ram, root, xs + ys, lo, hi) && hi <= VA_LIMIT
    requires MapsOne(ram, ram', root, b.userVirtAddr, e) && e != 0 && Next(e) == b.linearAddr
    requires b.order == 0 && b.userVirtAddr % PAGE_SIZE == 0 && b.userVirtAddr < VA_LIMIT
    ensures GraphOn(ram', root, xs + [b] + ys, lo, hi)
  {
    hide LeafEntry, Next, SamePage;
    var p := b.userVirtAddr;
    var zs, all := xs + ys, xs + [b] + ys;
    forall q: nat | q % PAGE_SIZE == 0 && q < VA_LIMIT && q != p
      ensures LeafEntry(ram', root, q) == LeafEntry(ram, root, q)
    {
      if SamePage(q, p) { AlignedSamePage(q, p); }
    }
    assert forall c :: c in all <==> c in zs || c == b;
    forall q: nat | q % PAGE_SIZE == 0 && lo <= q < hi && LeafEntry(ram', root, q) != 0 ensures HasBlock(all, q) {
      if q == p {
        assert b in all;
      } else {
        assert HasBlock(zs, q);
      }
    }
    forall c | c in all && InRange(c, lo, hi)
      ensures c.userVirtAddr % PAGE_SIZE == 0 && c.order == 0 && LeafEntry(ram', root, c.userVirtAddr) != 0
           && Next(LeafEntry(ram', root, c.userVirtAddr)) == c.linearAddr
    {
    }
    DistinctInsert(xs, ys, b, lo, hi);
  }

  /** A page mapped outside the range does not touch the range's graph. */
  lemma GraphElsewhere(ram: Ram, ram': Ram, root: nat, bs: seq<PagesBlock>, p: nat, lo: nat, hi: nat, e: nat)
    requires GraphOn(ram, root, bs, lo, hi) && hi <= VA_LIMIT
    requires MapsOne(ram, ram', root, p, e) && p % PAGE_SIZE == 0 && p < VA_LIMIT && !(lo <= p < hi)
    ensures GraphOn(ram', root, bs, lo, hi)
  {
    hide LeafEntry, Next, SamePage;
    forall q: nat | q % PAGE_SIZE == 0 && lo <= q < hi
      ensures LeafEntry(ram', root, q) == LeafEntry(ram, root, q)
    {
      if SamePage(q, p) { AlignedSamePage(q, p); }
    }
  }

  /** An area that covers an unmapped address is a private, demand-paged one. */
  lemma FaultingArea(ram: Ram, root: nat, vs: seq<Vma>, startBrk: nat, brk: nat, addr: nat)
    requires Layout(vs, startBrk, brk) && LoadedMapped(ram, root, vs)
    requires LeafEntry(ram, root, addr) == 0 && FindVma(vs, addr, 0) < |vs|
    ensures var i := FindVma(vs, addr, 0);
            && !vs[i].shared && vs[i].lma == NO_LMA && addr < VA_LIMIT && PageAddr(addr) >= PAGE_SIZE
            && (i == FindVma(vs, startBrk, 0) ==> startBrk <= PageAddr(addr) < UpperPageAddr(brk) <= MAX_BRK_ADDR)
            && (i != FindVma(vs, startBrk, 0) ==> !(startBrk <= PageAddr(addr) < MAX_BRK_ADDR))
  {
    hide LeafEntry;
    var i := FindVma(vs, addr, 0);
    assert Covers(vs[i], addr);
    BrkPages(startBrk, brk, addr);
  }

  lemma BrkPages(startBrk: nat, brk: nat, addr: nat)
    requires startBrk % PAGE_SIZE == 0
    ensures startBrk <= addr < brk ==> startBrk <= PageAddr(addr) < UpperPageAddr(brk)
    ensures brk <= MAX_BRK_ADDR ==> UpperPageAddr(brk) <= MAX_BRK_ADDR
    ensures addr < startBrk ==> PageAddr(addr) < startBrk
    ensures addr >= MAX_BRK_ADDR ==> PageAddr(addr) >= MAX_BRK_ADDR
  {
    assert MAX_BRK_ADDR % PAGE_SIZE == 0;
  }

  /** The shape is kept when area `i` gets one more block. */
  lemma LayoutRecorded(vs: seq<Vma>, startBrk: nat, brk: nat, i: nat, b: PagesBlock, addr: nat)
    requires Layout(vs, startBrk, brk) && i < |vs| && Covers(vs[i], addr)
    ensures Layout(Recorded(vs, i, b), startBrk, brk)
    ensures FindVma(Recorded(vs, i, b), startBrk, 0) == FindVma(vs, startBrk, 0)
    ensures HeapInside(vs, startBrk) && (i == FindVma(vs, startBrk, 0) ==> InRange(b, startBrk, MAX_BRK_ADDR)) ==>
              HeapInside(Recorded(vs, i, b), startBrk)
  {
    FindVmaSame(vs, Recorded(vs, i, b), startBrk, 0);
  }

  lemma LoadedKept(ram: Ram, ram': Ram, root: nat, vs: seq<Vma>, ws: seq<Vma>, p: nat, e: nat)
    requires LoadedMapped(ram, root, vs) && MapsOne(ram, ram', root, p, e) && e != 0 && |ws| == |vs|
    requires forall k :: 0 <= k < |vs| ==> ws[k].start == vs[k].start && ws[k].end == vs[k].end && ws[k].lma == vs[k].lma
    ensures LoadedMapped(ram', root, ws)
  {
    forall k, a: nat | 0 <= k < |ws| && ws[k].lma != NO_LMA && Covers(ws[k], a) ensures LeafEntry(ram', root, a) != 0 {
      assert Covers(vs[k], a);
      if SamePage(a, p) { SamePageLeaf(ram', root, p); SamePageLeaf(ram, root, p); }
    }
  }

  /** The account after a fault whose page went on the list of area `i`. */
  lemma LedgerRecorded(u0: set<nat>, u2: set<nat>, base: set<nat>, t0: map<nat, Node>, t2: map<nat, Node>,
                       vs: seq<Vma>, lost: seq<PagesBlock>, i: nat, b: PagesBlock)
    requires Ledger(u0, base, t0, vs, lost) && i < |vs| && !vs[i].shared && b.order == 0
    requires multiset(u2) + multiset(t0.Keys) == multiset(u0) + multiset(t2.Keys) + multiset{b.linearAddr}
    ensures Ledger(u2, base, t2, Recorded(vs, i, b), lost)
  {
    hide OwnedPages, BlocksPages, BlockPages;
    var v := vs[i].(blocks := vs[i].blocks + [b]);
    OwnedUpdate(vs, i, v);
    BlocksAppend(vs[i].blocks, [b]);
    BlocksOne(b);
    OnePageBlock(b);
    var o, o', l := OwnedPages(vs), OwnedPages(Recorded(vs, i, b)), BlocksPages(lost);
    Cancel(o', o, BlocksPages(vs[i].blocks), multiset{b.linearAddr});
    assert multiset(u0) == multiset(base) + multiset(t0.Keys) + (o + l);
    Balance(multiset(u0), multiset(u2), multiset(base), multiset(t0.Keys), multiset(t2.Keys), o + l,
      multiset{b.linearAddr});
    assert o' + l == o + l + multiset{b.linearAddr};
  }

  lemma Cancel(o': multiset<nat>, o: multiset<nat>, x: multiset<nat>, p: multiset<nat>)
    requires o' + x == o + (x + p)
    ensures o' == o + p
  {
    forall f ensures o'[f] == (o + p)[f] {
      assert (o' + x)[f] == (o + (x + p))[f];
    }
  }

  lemma Balance(u0: multiset<nat>, u2: multiset<nat>, base: multiset<nat>, t0: multiset<nat>, t2: multiset<nat>,
          rest: multiset<nat>, p: multiset<nat>)
    requires u2 + t0 == u0 + t2 + p
    requires u0 == base + t0 + rest
    ensures u2 == base + t2 + (rest + p)
  {
    forall f ensures u2[f] == (base + t2 + (rest + p))[f] {
      assert (u2 + t0)[f] == (u0 + t2 + p)[f];
    }
  }

  /** The account after a fault whose page could not be recorded. */
  lemma LedgerLost(u0: set<nat>, u2: set<nat>, base: set<nat>, t0: map<nat, Node>, t2: map<nat, Node>,
                   vs: seq<Vma>, lost: seq<PagesBlock>, b: PagesBlock)
    requires Ledger(u0, base, t0, vs, lost) && b.order == 0
    requires multiset(u2) + multiset(t0.Keys) == multiset(u0) + multiset(t2.Keys) + multiset{b.linearAddr}
    ensures Ledger(u2, base, t2, vs, lost + [b])
  {
    hide OwnedPages, BlocksPages, BlockPages;
    BlocksAppend(lost, [b]);
    BlocksOne(b);
    OnePageBlock(b);
    var o, l := OwnedPages(vs), BlocksPages(lost);
    assert multiset(u0) == multiset(base) + multiset(t0.Keys) + (o + l);
    Balance(multiset(u0), multiset(u2), multiset(base), multiset(t0.Keys), multiset(t2.Keys), o + l,
      multiset{b.linearAddr});
    assert o + (l + multiset{b.linearAddr}) == o + l + multiset{b.linearAddr};
  }

  /** The heap area's blocks after recording `b` in area `i`, or losing it. */
  lemma HeapRecorded(vs: seq<Vma>, startBrk: nat, stale: seq<PagesBlock>, lost: seq<PagesBlock>, i: nat, b: PagesBlock)
    requires i < |vs| && FindVma(Recorded(vs, i, b), startBrk, 0) == FindVma(vs, startBrk, 0) && stale <= HeapList(vs, startBrk)
    ensures var ws, h := Recorded(vs, i, b), FindVma(vs, startBrk, 0);
            && stale <= HeapList(ws, startBrk)
            && HeapList(ws, startBrk) == HeapList(vs, startBrk) + (if i == h then [b] else [])
            && (i == h ==> MappedBlocks(ws, startBrk, stale, lost) == MappedBlocks(vs, startBrk, stale, []) + [b] + lost)
            && (i != h ==> MappedBlocks(ws, startBrk, stale, lost) == MappedBlocks(vs, startBrk, stale, lost))
    ensures MappedBlocks(vs, startBrk, stale, lost) == MappedBlocks(vs, startBrk, stale, []) + lost
    ensures MappedBlocks(vs, startBrk, stale, lost + [b]) == MappedBlocks(vs, startBrk, stale, lost) + [b] + []
  {
    hide FindVma;
    var ws, h, bs := Recorded(vs, i, b), FindVma(vs, startBrk, 0), HeapList(vs, startBrk);
    assert HeapList(ws, startBrk) == if i == h then bs + [b] else bs;
    hide HeapList, Recorded;
    LaterBlock(bs, stale, b);
    AfterStale(vs, startBrk, stale, lost, b);
    if i == h { assert bs[|stale|..] + [b] + lost == (bs[|stale|..] + []) + [b] + lost; }
  }

  lemma LaterBlock(bs: seq<PagesBlock>, stale: seq<PagesBlock>, b: PagesBlock)
    requires stale <= bs
    ensures stale <= bs + [b] && (bs + [b])[|stale|..] == bs[|stale|..] + [b]
  {
  }

  lemma AfterStale(vs: seq<Vma>, startBrk: nat, stale: seq<PagesBlock>, lost: seq<PagesBlock>, b: PagesBlock)
    ensures MappedBlocks(vs, startBrk, stale, lost) == MappedBlocks(vs, startBrk, stale, []) + lost
    ensures MappedBlocks(vs, startBrk, stale, lost + [b]) == MappedBlocks(vs, startBrk, stale, lost) + [b] + []
  {
    hide HeapList;
    var bs := HeapList(vs, startBrk);
    var xs := if |stale| <= |bs| then bs[|stale|..] else [];
    assert xs + [] == xs && xs + (lost + [b]) == xs + lost + [b] + [];
  }

  /** The heap graph after a fault, whether its page was recorded or lost. */
  lemma FaultGraph(ram: Ram, ram': Ram, root: nat, vs: seq<Vma>, stale: seq<PagesBlock>, lost: seq<PagesBlock>, startBrk: nat, brk: nat,
                   i: nat, addr: nat, b: PagesBlock, e: nat)
    requires Layout(vs, startBrk, brk) && i < |vs| && i == FindVma(vs, addr, 0) && addr < VA_LIMIT
    requires b.userVirtAddr == PageAddr(addr) && b.order == 0 && e != 0 && Next(e) == b.linearAddr
    requires MapsOne(ram, ram', root, b.userVirtAddr, e) && stale <= HeapList(vs, startBrk)
    requires GraphOn(ram, root, MappedBlocks(vs, startBrk, stale, lost), startBrk, MAX_BRK_ADDR)
    requires BelowBrk(HeapList(vs, startBrk) + lost, startBrk, brk)
    requires i == FindVma(vs, startBrk, 0) ==> startBrk <= PageAddr(addr) < UpperPageAddr(brk)
    requires i != FindVma(vs, startBrk, 0) ==> !(startBrk <= PageAddr(addr) < MAX_BRK_ADDR)
    ensures stale <= HeapList(Recorded(vs, i, b), startBrk)
    ensures GraphOn(ram', root, MappedBlocks(Recorded(vs, i, b), startBrk, stale, lost), startBrk, MAX_BRK_ADDR)
    ensures BelowBrk(HeapList(Recorded(vs, i, b), startBrk) + lost, startBrk, brk)
    ensures GraphOn(ram', root, MappedBlocks(vs, startBrk, stale, lost + [b]), startBrk, MAX_BRK_ADDR)
    ensures BelowBrk(HeapList(vs, startBrk) + (lost + [b]), startBrk, brk)
  {
    assert Covers(vs[i], addr);
    LayoutRecorded(vs, startBrk, brk, i, b, addr);
    HeapRecorded(vs, startBrk, stale, lost, i, b);
    hide GraphOn, MapsOne, Next, Layout, MappedBlocks, HeapList, FindVma, UpperPageAddr;
    var bs, xs := MappedBlocks(vs, startBrk, stale, lost), MappedBlocks(vs, startBrk, stale, []);
    assert bs == bs + [];
    if i == FindVma(vs, startBrk, 0) {
      GraphAdd(ram, ram', root, bs, [], b, startBrk, MAX_BRK_ADDR, e);
      GraphAdd(ram, ram', root, xs, lost, b, startBrk, MAX_BRK_ADDR, e);
    } else {
      GraphElsewhere(ram, ram', root, bs, b.userVirtAddr, startBrk, MAX_BRK_ADDR, e);
      GraphAdd(ram, ram', root, bs, [], b, startBrk, MAX_BRK_ADDR, e);
    }
  }

  /** setup_user_page_mapping for one page. */
  method MapUserPage(m: PageMemory, pgDir: nat, virtAddr: nat, page: nat, ghost tabs0: map<nat, Node>)
    returns (ok: bool, ghost tabs: map<nat, Node>)
    requires m.Valid() && TreeOk(m.ram, pgDir, tabs0) && tabs0.Keys <= m.Used()
    requires InPool(page) && virtAddr % PAGE_SIZE == 0 && virtAddr < VA_LIMIT
    requires LeafEntry(m.ram, pgDir, virtAddr) == 0
    modifies m`ram, m.usage
    ensures m.Valid()
    ensures !ok ==> PoolExhausted(m.usage[..])
    ensures ok ==> TreeOk(m.ram, pgDir, tabs) && OnlyTables(old(m.ram), m.ram, old(m.Used()), m.Used(), tabs0, tabs)
    ensures ok ==> MapsOne(old(m.ram), m.ram, pgDir, virtAddr, page - PAGE_OFFSET + 0xF53)
    ensures ok ==> HasLeafTable(m.ram, pgDir, virtAddr)
  {
    hide LeafEntry, HasLeafTable, TreeOk, OnlyTables, PoolExhausted, MapsRange, Entry, I0, I1, I2;
    PoolFrameGood(page);
    PoolBelow48(page);
    assert PageCount(PAGE_SIZE) == 1 && GoodAttrs(USER_ATTRS);
    ok, tabs := AddSingleMap(m, pgDir, Pa(page), virtAddr, PAGE_SIZE, USER_ATTRS, tabs0);
    if ok {
      RangeOfOne(old(m.ram), m.ram, pgDir, virtAddr, Pa(page));
      UserEntry(Pa(page));
      assert PageAt(virtAddr, 0) == virtAddr;
    }
  }

  lemma PoolBelow48(page: nat)
    requires InPool(page)
    ensures Pa(page) + PAGE_SIZE <= BIT48 && Pa(page) % PAGE == 0 && Pa(page) >= 0
  {
  }

  /** A page that is not in use is a run of one. */
  lemma FreePageThere(u: seq<bool>, page: nat)
    requires |u| == MAX_NUM_PAGES && InPool(page) && page !in UsedSet(u)
    ensures !PoolExhausted(u)
  {
    var n := (page - PAGE_POOL_START) / PAGE_SIZE;
    assert page == Frame(n) && n < MAX_NUM_PAGES;
    FrameInSet(u, n);
    assert FreeRun(u, n, 1);
  }

  /** The entry of a pool page mapped for the user, readable and writable, leads to the page. */
  lemma LeadsTo(page: nat)
    requires InPool(page)
    ensures page >= PAGE_OFFSET && Next(page - PAGE_OFFSET + 0xF53) == page
  {
    PoolFrameGood(page);
    UserEntry(Pa(page));
    EntryPhyAddr(Pa(page), USER_ATTRS);
  }

  /**
   * The page a successful fault brought in: fresh, and what its address now translates to. The low bits of the
   * entry let user code read and write it.
   */
  ghost predicate BroughtIn(ram: Ram, ram': Ram, root: nat, used: set<nat>, addr: nat, page: nat) {
    && page !in used && InPool(page)
    && LeafEntry(ram', root, addr) == page - PAGE_OFFSET + 0xF53 && Next(LeafEntry(ram', root, addr)) == page
    && forall w: nat :: !SamePage(w, addr) ==> LeafEntry(ram', root, w) == LeafEntry(ram, root, w)
  }

  lemma IsBroughtIn(ram: Ram, ram': Ram, root: nat, used: set<nat>, addr: nat, page: nat)
    requires page !in used && InPool(page) && MapsOne(ram, ram', root, PageAddr(addr), page - PAGE_OFFSET + 0xF53)
    ensures BroughtIn(ram, ram', root, used, addr, page)
  {
    LeadsTo(page);
    PageOfAddr(addr);
    SamePageLeaf(ram', root, PageAddr(addr));
  }

  lemma EntryOf(ram: Ram, ram': Ram, root: nat, used: set<nat>, addr: nat, page: nat)
    requires BroughtIn(ram, ram', root, used, addr, page)
    ensures LeafEntry(ram', root, addr) == page - 0xFFFF_FFC0_0000_0000 + 0xF53
  {
  }

  /** After a page was mapped for `addr`, whether its block `b` is recorded or lost: account, areas and graph. */
  lemma FaultKept(ram: Ram, ram': Ram, root: nat, base: set<nat>, used0: set<nat>, used1: set<nat>, used2: set<nat>, tabs0: map<nat, Node>, tabs: map<nat, Node>,
                  vs: seq<Vma>, stale: seq<PagesBlock>, leaked: seq<PagesBlock>, lost: seq<PagesBlock>, startBrk: nat, brk: nat, i: nat, addr: nat, b: PagesBlock)
    requires Ledger(used0, base, tabs0, vs, leaked + lost) && GoodVmas(vs) && GoodBlocks(lost) && GoodBlock(b)
    requires Layout(vs, startBrk, brk) && LoadedMapped(ram, root, vs) && HeapInside(vs, startBrk) && stale <= HeapList(vs, startBrk)
    requires GraphOn(ram, root, MappedBlocks(vs, startBrk, stale, lost), startBrk, MAX_BRK_ADDR)
    requires BelowBrk(HeapList(vs, startBrk) + lost, startBrk, brk)
    requires LeafEntry(ram, root, addr) == 0 && i == FindVma(vs, addr, 0) < |vs|
    requires b.userVirtAddr == PageAddr(addr) && b.order == 0
    requires InPool(b.linearAddr) && MapsOne(ram, ram', root, b.userVirtAddr, b.linearAddr - PAGE_OFFSET + 0xF53)
    requires b.linearAddr !in used0 && used1 == used0 + {b.linearAddr} && OnlyTables(ram, ram', used1, used2, tabs0, tabs)
    ensures var ws := Recorded(vs, i, b);
            && Ledger(used2, base, tabs, ws, leaked + lost) && GoodVmas(ws) && Layout(ws, startBrk, brk) && LoadedMapped(ram', root, ws)
            && HeapInside(ws, startBrk) && stale <= HeapList(ws, startBrk)
            && GraphOn(ram', root, MappedBlocks(ws, startBrk, stale, lost), startBrk, MAX_BRK_ADDR)
            && BelowBrk(HeapList(ws, startBrk) + lost, startBrk, brk)
    ensures Ledger(used2, base, tabs, vs, leaked + (lost + [b])) && GoodBlocks(lost + [b]) && LoadedMapped(ram', root, vs)
    ensures GraphOn(ram', root, MappedBlocks(vs, startBrk, stale, lost + [b]), startBrk, MAX_BRK_ADDR)
    ensures BelowBrk(HeapList(vs, startBrk) + (lost + [b]), startBrk, brk)
    ensures BroughtIn(ram, ram', root, used0, addr, b.linearAddr)
    ensures LeafEntry(ram', root, addr) == b.linearAddr - 0xFFFF_FFC0_0000_0000 + 0xF53
  {
    hide LeafEntry, TreeOk, OwnedPages, BlocksPages, GraphOn, MappedBlocks, HeapList, HeapInside, BelowBrk, Next,
         InPool, MapsOne, BroughtIn, SamePage, GoodVmas, OnlyTables;
    LeadsTo(b.linearAddr);
    var e: nat := b.linearAddr - PAGE_OFFSET + 0xF53;
    FaultingArea(ram, root, vs, startBrk, brk, addr);
    FoundThere(vs, addr);
    hide LoadedMapped, Layout, FindVma, Ledger;
    TablesOnly(ram, ram', used1, used2, tabs0, tabs);
    LedgerMap(used0, used1, used2, b.linearAddr, tabs0, tabs);
    FaultGraph(ram, ram', root, vs, stale, lost, startBrk, brk, i, addr, b, e);
    IsBroughtIn(ram, ram', root, used0, addr, b.linearAddr);
    EntryOf(ram, ram', root, used0, addr, b.linearAddr);
    GoodRecorded(vs, i, b);
    LedgerRecorded(used0, used2, base, tabs0, tabs, vs, leaked + lost, i, b);
    LayoutRecorded(vs, startBrk, brk, i, b, addr);
    LedgerLost(used0, used2, base, tabs0, tabs, vs, leaked + lost, b);
    assert leaked + lost + [b] == leaked + (lost + [b]);
    LoadedKept(ram, ram', root, vs, vs, b.userVirtAddr, e);
    LoadedKept(ram, ram', root, vs, Recorded(vs, i, b), b.userVirtAddr, e);
  }

  lemma FoundThere(vs: seq<Vma>, a: nat)
    requires FindVma(vs, a, 0) < |vs|
    ensures Covers(vs[FindVma(vs, a, 0)], a)
  {
  }

  /**
   * The fault branch of do_el0_sync for a translation fault. `page` is the block's frame. Stopped:
   * the pool ran dry while building tables and the kernel hangs in its assert.
   */
  method PageFault(m: PageMemory, t: Task, addr: nat, kmallocOk: bool, ghost base: set<nat>)
    returns (r: FaultOutcome, page: nat)
    requires SpaceOk(m, t, base) && LeafEntry(m.ram, t.pgDir, addr) == 0
    modifies m`ram, m.usage, t`mmap, t`tabs, t`lost
    ensures m.Valid()
    ensures r != Stopped ==> SpaceOk(m, t, base)
    ensures r == NoArea <==> FindVma(old(t.mmap), addr, 0) == |old(t.mmap)|
    ensures r == NoMemory <==> r != NoArea && PoolExhausted(old(m.usage[..]))
    ensures r == Stopped ==> PoolExhausted(m.usage[..])
    ensures r == NoArea || r == NoMemory ==>
              t.mmap == old(t.mmap) && t.lost == old(t.lost) && t.tabs == old(t.tabs) && m.ram == old(m.ram) && m.usage[..] == old(m.usage[..])
    ensures r == Mapped ==> BroughtIn(old(m.ram), m.ram, t.pgDir, old(m.Used()), addr, page)
    ensures r == Mapped ==> LeafEntry(m.ram, t.pgDir, addr) == page - 0xFFFF_FFC0_0000_0000 + 0xF53
    ensures r == Mapped ==>
              var i := FindVma(old(t.mmap), addr, 0);
              var b := PagesBlock(PageAddr(addr), page, 0);
              if kmallocOk then t.mmap == Recorded(old(t.mmap), i, b) && t.lost == old(t.lost)
              else t.mmap == old(t.mmap) && t.lost == old(t.lost) + [b]
    ensures r == Mapped ==>
              && old(t.tabs).Keys <= t.tabs.Keys && page !in t.tabs
              && m.Used() == old(m.Used()) + {page} + (t.tabs.Keys - old(t.tabs).Keys)
    ensures r != Stopped ==> m.ram.Keys == old(m.ram.Keys)
    ensures r != Stopped ==> forall f :: f in m.ram && f !in t.tabs ==> m.ram[f] == old(m.ram)[f]
  {
    hide LeafEntry, HasLeafTable, TreeOk, OwnedPages, BlocksPages, GraphOn, Layout, LoadedMapped, MappedBlocks,
         HeapList, HeapInside, BelowBrk, Next, InPool, MapsOne, BroughtIn, SamePage, Ledger, GoodVmas, OnlyTables,
         PoolExhausted, UsedSet;
    page := NULL;
    var i := FindVma(t.mmap, addr, 0);
    if i == |t.mmap| {
      return NoArea, page;
    }
    ghost var ram0, used0, tabs0 := m.ram, m.Used(), t.tabs;
    FaultingArea(ram0, t.pgDir, t.mmap, t.startBrk, t.brk, addr);
    LedgerTables(used0, base, tabs0, t.mmap, t.leaked + t.lost);
    page := m.GetFreePages(0);
    if page == NULL {
      PoolDry(m.usage[..]);
      return NoMemory, page;
    }
    PagesOne(page);
    RoomForOne(page);
    FreePageThere(old(m.usage[..]), page);
    assert page != NULL;
    PageOfAddr(addr);
    SamePageEntry(ram0, t.pgDir, addr, PageAddr(addr));
    ghost var used1 := m.Used();
    var ok;
    ghost var tabs;
    ok, tabs := MapUserPage(m, t.pgDir, PageAddr(addr), page, tabs0);
    if !ok {
      return Stopped, page;
    }
    TablesOnly(ram0, m.ram, used1, m.Used(), tabs0, tabs);
    var b := PagesBlock(PageAddr(addr), page, 0);
    FaultKept(ram0, m.ram, t.pgDir, base, used0, used1, m.Used(), tabs0, tabs, t.mmap, t.stale, t.leaked, t.lost,
      t.startBrk, t.brk, i, addr, b);
    t.tabs := tabs;
    if b.userVirtAddr != NULL && b.linearAddr != NULL && kmallocOk {
      t.mmap := Recorded(t.mmap, i, b);
    } else {
      t.lost := t.lost + [b];
    }
    r := Mapped;
  }

  lemma TablesOnly(ram: Ram, ram': Ram, used: set<nat>, used': set<nat>, tabs: map<nat, Node>, tabs': map<nat, Node>)
    requires OnlyTables(ram, ram', used, used', tabs, tabs')
    ensures used' == used + (tabs'.Keys - tabs.Keys) && tabs.Keys <= tabs'.Keys && (tabs'.Keys - tabs.Keys) !! used
    ensures ram'.Keys == ram.Keys && forall f :: f in ram && f !in tabs' ==> ram'[f] == ram[f]
  {
  }

  lemma GoodRecorded(vs: seq<Vma>, i: nat, b: PagesBlock)
    requires GoodVmas(vs) && i < |vs| && GoodBlock(b)
    ensures GoodVmas(Recorded(vs, i, b))
  {
    assert GoodBlocks(vs[i].blocks);
    var ws := Recorded(vs, i, b);
    forall k | 0 <= k < |ws| ensures GoodBlocks(ws[k].blocks) {
      assert GoodBlocks(vs[k].blocks);
    }
  }
}
