/** kernel/sched.c: free_page_tables, and what a page directory's whole life does to the pool. */
module Teardown {
  import opened Descriptor
  import opened Machine
  import opened PageTable

  /** A frame that a fresh, unmapped page translates to after mapping is the one asked for. */
  lemma WalkAfterMap(ram: Ram, ram': Ram, root: nat, virt: nat, phys: nat, n: nat, attrs: nat, k: nat)
    requires GoodAttrs(attrs) && forall j :: 0 <= j < n ==> GoodFrame(PageAt(phys, j))
    requires MapsRange(ram, ram', root, virt, phys, n, attrs) && k < n
    ensures LeafEntry(ram, root, PageAt(virt, k)) == 0 ==> PhyAddr(LeafEntry(ram', root, PageAt(virt, k))) == PageAt(phys, k)
    ensures LeafEntry(ram, root, PageAt(virt, k)) != 0 ==>
              PhyAddr(LeafEntry(ram', root, PageAt(virt, k))) == PhyAddr(LeafEntry(ram, root, PageAt(virt, k)))
  {
    hide LeafEntry, Entry, PhyAddr;
    EntryPhyAddr(PageAt(phys, k), attrs);
  }

  /** The middle table below entry `i` and the last-level tables below that. */
  ghost predicate Below(n: Node, i: nat) { (n.Mid? || n.Leaf?) && n.i == i }

  ghost function BelowSet(tabs: map<nat, Node>, i: nat): set<nat> {
    set f | f in tabs && Below(tabs[f], i)
  }

  ghost function LeavesSet(tabs: map<nat, Node>, i: nat, j: nat): set<nat> {
    set f | f in tabs && tabs[f].Leaf? && tabs[f].i == i && tabs[f].j < j
  }

  ghost function BelowUpTo(tabs: map<nat, Node>, i: nat): set<nat> {
    set f | f in tabs && (tabs[f].Mid? || tabs[f].Leaf?) && tabs[f].i < i
  }

  /** Only last-level table reachable at (i, j). */
  lemma LeavesStep(ram: Ram, root: nat, tabs: map<nat, Node>, t: nat, j: nat)
    requires TreeOk(ram, root, tabs) && t in tabs && tabs[t].Mid? && j < 512
    ensures Get(ram, t, j) == 0 ==> LeavesSet(tabs, tabs[t].i, j + 1) == LeavesSet(tabs, tabs[t].i, j)
    ensures Get(ram, t, j) != 0 ==>
              && LeavesSet(tabs, tabs[t].i, j + 1) == LeavesSet(tabs, tabs[t].i, j) + {Next(Get(ram, t, j))}
              && Next(Get(ram, t, j)) in tabs && Next(Get(ram, t, j)) !in LeavesSet(tabs, tabs[t].i, j)
  {
    hide Next, InPool;
    var i := tabs[t].i;
    assert Placed(ram, root, t, tabs[t]);
    forall f | f in tabs && tabs[f] == Leaf(i, j) ensures Get(ram, t, j) != 0 && f == Next(Get(ram, t, j)) {
      assert Placed(ram, root, f, tabs[f]);
    }
  }

  lemma BelowIs(ram: Ram, root: nat, tabs: map<nat, Node>, t: nat)
    requires TreeOk(ram, root, tabs) && t in tabs && tabs[t].Mid?
    ensures BelowSet(tabs, tabs[t].i) == LeavesSet(tabs, tabs[t].i, 512) + {t}
    ensures t !in LeavesSet(tabs, tabs[t].i, 512)
  {
    hide Next, InPool;
    forall f | f in tabs ensures Placed(ram, root, f, tabs[f]) { }
  }

  lemma BelowStep(ram: Ram, root: nat, tabs: map<nat, Node>, i: nat)
    requires TreeOk(ram, root, tabs) && i < 512
    ensures BelowUpTo(tabs, i + 1) == BelowUpTo(tabs, i) + BelowSet(tabs, i)
    ensures BelowUpTo(tabs, i) !! BelowSet(tabs, i)
    ensures Get(ram, root, i) == 0 ==> BelowSet(tabs, i) == {}
    ensures Get(ram, root, i) != 0 ==> At(tabs, Next(Get(ram, root, i)), Mid(i))
  {
    hide Next, InPool;
    forall f | f in tabs ensures Placed(ram, root, f, tabs[f]) { }
  }

  lemma AllBelow(ram: Ram, root: nat, tabs: map<nat, Node>)
    requires TreeOk(ram, root, tabs)
    ensures BelowUpTo(tabs, 512) + {root} == tabs.Keys && root !in BelowUpTo(tabs, 512)
  {
    hide Next, InPool;
    forall f | f in tabs ensures Placed(ram, root, f, tabs[f]) { }
  }

  /** free_page_tables_layer1: frees a middle table and the last-level tables below it. */
  method FreePageTablesLayer1(m: PageMemory, pageTable: nat, ghost root: nat, ghost tabs: map<nat, Node>)
    returns (r: FreeOutcome)
    requires m.Valid() && TreeOk(m.ram, root, tabs) && pageTable in tabs && tabs[pageTable].Mid?
    requires BelowSet(tabs, tabs[pageTable].i) <= m.Used()
    modifies m.usage
    ensures r == Freed
    ensures m.Used() == old(m.Used()) - BelowSet(tabs, tabs[pageTable].i)
  {
    hide InPool, BelowSet, LeavesSet, PhyAddr;
    ghost var used0 := m.Used();
    ghost var n := tabs[pageTable].i;
    BelowIs(m.ram, root, tabs, pageTable);
    assert TableFrame(m.ram, pageTable);
    NoLeavesYet(tabs, n);
    for i := 0 to WORDS
      invariant m.Used() == used0 - LeavesSet(tabs, n, i)
    {
      LeavesStep(m.ram, root, tabs, pageTable, i);
      LeavesMono(tabs, n, i + 1);
      if m.ram[pageTable][i] != 0 {
        var entry := Next(m.ram[pageTable][i]);
        assert TableFrame(m.ram, entry);
        RoomForOne(entry);
        PagesOne(entry);
        r := m.FreePages(entry, 0);
      }
    }
    RoomForOne(pageTable);
    PagesOne(pageTable);
    r := m.FreePages(pageTable, 0);
  }

  lemma NoLeavesYet(tabs: map<nat, Node>, n: nat)
    ensures LeavesSet(tabs, n, 0) == {}
  {
  }

  lemma LeavesMono(tabs: map<nat, Node>, n: nat, j: nat)
    requires j <= 512
    ensures LeavesSet(tabs, n, j) <= LeavesSet(tabs, n, 512)
  {
  }

  /** free_page_tables: every table frame of the tree is freed once, and nothing else is. */
  method FreePageTables(m: PageMemory, pgDir: nat, ghost tabs: map<nat, Node>) returns (r: FreeOutcome)
    requires m.Valid() && TreeOk(m.ram, pgDir, tabs) && tabs.Keys <= m.Used()
    modifies m.usage
    ensures r == Freed
    ensures m.Used() == old(m.Used()) - tabs.Keys
  {
    hide InPool, BelowSet, BelowUpTo, PhyAddr;
    ghost var used0 := m.Used();
    AllBelow(m.ram, pgDir, tabs);
    assert TableFrame(m.ram, pgDir);
    NothingBelow(tabs);
    for i := 0 to WORDS
      invariant m.Used() == used0 - BelowUpTo(tabs, i)
    {
      BelowStep(m.ram, pgDir, tabs, i);
      BelowMono(tabs, i + 1);
      if m.ram[pgDir][i] != 0 {
        r := FreePageTablesLayer1(m, Next(m.ram[pgDir][i]), pgDir, tabs);
      }
    }
    RoomForOne(pgDir);
    PagesOne(pgDir);
    r := m.FreePages(pgDir, 0);
  }

  lemma NothingBelow(tabs: map<nat, Node>)
    ensures BelowUpTo(tabs, 0) == {}
  {
  }

  lemma BelowMono(tabs: map<nat, Node>, i: nat)
    requires i <= 512
    ensures BelowUpTo(tabs, i) <= BelowUpTo(tabs, 512)
  {
  }

  /** struct memory_map. */
  datatype MemoryMap = MemoryMap(phyAddr: nat, virtAddr: nat, size: nat, attrs: nat)

  predicate GoodMap(p: MemoryMap) {
    GoodAttrs(p.attrs) && p.phyAddr % PAGE == 0 && p.phyAddr + p.size <= BIT48 && p.virtAddr + p.size <= VA_LIMIT
  }

  /**
   * A fresh directory, any mappings in any order, and the teardown: unless the pool ran dry on
   * the way, the usage map is afterwards what it was before, and only table frames were written.
   */
  method DirectoryLife(m: PageMemory, maps: seq<MemoryMap>) returns (ok: bool)
    requires m.Valid() && forall i :: 0 <= i < |maps| ==> GoodMap(maps[i])
    modifies m`ram, m.usage
    ensures m.Valid()
    ensures ok ==> m.usage[..] == old(m.usage[..])
    ensures ok ==> forall f :: f in old(m.Used()) && f in m.ram ==> m.ram[f] == old(m.ram)[f]
    ensures !ok ==> PoolExhausted(m.usage[..])
  {
    hide InPool, LeafEntry, HasLeafTable, MapsRange, TreeOk, PoolExhausted;
    ghost var used0, ram0 := m.Used(), m.ram;
    var pgDir := m.GetZeroedPages(0);
    if pgDir == NULL {
      PoolDry(m.usage[..]);
      return false;
    }
    PagesOne(pgDir);
    FreshTree(m.ram, pgDir);
    ghost var tabs := map[pgDir := Dir];
    assert tabs.Keys == {pgDir};
    for i := 0 to |maps|
      invariant m.Valid() && TreeOk(m.ram, pgDir, tabs)
      invariant m.Used() == used0 + tabs.Keys && tabs.Keys !! used0
      invariant m.ram.Keys == ram0.Keys && forall f :: f in ram0 && f in used0 ==> m.ram[f] == ram0[f]
    {
      ok, tabs := AddSingleMap(m, pgDir, maps[i].phyAddr, maps[i].virtAddr, maps[i].size, maps[i].attrs, tabs);
      if !ok {
        return;
      }
    }
    var r := FreePageTables(m, pgDir, tabs);
    assert m.Used() == used0;
    UsedInjective(m.usage[..], old(m.usage[..]));
    ok := true;
  }
}
