/** kernel/sched.c: setup_user_page_mappings, which maps every area that has a load address. */
module VmSetup {
  import opened Descriptor
  import opened Machine
  import opened PageTable
  import opened VmBlocks
  import opened AddressSpace

  predicate Loaded(v: Vma) { v.lma != NO_LMA }

  function AttrsOf(v: Vma): (a: nat)
    ensures GoodAttrs(a)
  {
    if v.write then USER_ATTRS else USER_ATTRS + PTE_RDONLY
  }

  function VmaPages(v: Vma): nat { if v.start <= v.end then PageCount(v.end - v.start) else 0 }

  /** A loaded area: page-aligned, inside the 39-bit window, on frames below 2^48. */
  predicate Loadable(v: Vma) {
    Loaded(v) ==> v.start % PAGE_SIZE == 0 && v.start <= v.end <= VA_LIMIT && v.lma % PAGE_SIZE == 0 && v.lma + (v.end - v.start) <= BIT48
  }

  predicate Disjoint(v: Vma, w: Vma) { v.end <= w.start || w.end <= v.start }

  ghost predicate AllLoadable(vs: seq<Vma>) {
    && (forall i :: 0 <= i < |vs| ==> Loadable(vs[i]))
    && (forall i, j :: 0 <= i < j < |vs| ==> Disjoint(vs[i], vs[j]))
  }

  /** Page `k` of a loaded area, and the frame it is loaded at. */
  function UserPage(v: Vma, k: nat): nat { PageAt(v.start, k) }
  function LoadPage(v: Vma, k: nat): nat { PageAt(v.lma, k) }

  lemma LoadPageGood(v: Vma, k: nat)
    requires Loadable(v) && Loaded(v) && k < VmaPages(v)
    ensures GoodFrame(LoadPage(v, k)) && UserPage(v, k) < v.end <= VA_LIMIT && UserPage(v, k) >= v.start
    ensures UserPage(v, k) % PAGE_SIZE == 0
  {
    RangeFrames(v.lma, v.start, v.end - v.start);
    RangeFrames(0, v.start, v.end - v.start);
    assert PageAt(0, k) < 0 + (v.end - v.start);
  }

  /** Area `v` translates page by page to its load address. */
  ghost predicate MappedTo(ram: Ram, root: nat, v: Vma)
    requires Loadable(v) && Loaded(v)
  {
    forall k: nat :: k < VmaPages(v) ==>
      (LoadPageGood(v, k); LeafEntry(ram, root, UserPage(v, k)) == Entry(LoadPage(v, k), AttrsOf(v)))
  }

  lemma PageInArea(start: nat, end: nat, a: nat)
    requires start % PAGE_SIZE == 0 && start <= a < end
    ensures var k := (a - start) / PAGE_SIZE; k < PageCount(end - start) && a / PAGE == PageAt(start, k) / PAGE
  {
    var k := (a - start) / PAGE_SIZE;
    PageNumber(start, k);
    assert a / PAGE == start / PAGE + k;
  }

  /**
   * The last-level entry of every address of a mapped area, in numbers: the frame, and low bits that let user
   * code in (bit 6) and forbid stores (bit 7) exactly when the area is not writable.
   */
  lemma EntryAt(ram: Ram, root: nat, v: Vma, a: nat)
    requires Loadable(v) && Loaded(v) && v.start <= a < v.end && MappedTo(ram, root, v)
    ensures LeafEntry(ram, root, a) == v.lma + (a - v.start) / 0x1000 * 0x1000 + (if v.write then 0xF53 else 0xFD3)
  {
    hide LeafEntry, Entry;
    var k := (a - v.start) / PAGE_SIZE;
    PageInArea(v.start, v.end, a);
    LoadPageGood(v, k);
    assert SamePage(a, UserPage(v, k)) by { SamePageSameIndices(a, UserPage(v, k)); }
    SamePageEntry(ram, root, a, UserPage(v, k));
    UserEntry(LoadPage(v, k));
  }

  /** `w` lies in a page of one of the first `n` areas that is loaded. */
  ghost predicate InLoaded(vs: seq<Vma>, n: nat, w: nat)
    requires n <= |vs|
  {
    exists j, k: nat :: 0 <= j < n && Loaded(vs[j]) && k < VmaPages(vs[j]) && SamePage(w, UserPage(vs[j], k))
  }

  /** The first `n` areas are mapped, and nothing else is. */
  ghost predicate MappedFirst(ram: Ram, root: nat, vs: seq<Vma>, n: nat)
    requires n <= |vs| && AllLoadable(vs)
  {
    && (forall j :: 0 <= j < n && Loaded(vs[j]) ==> MappedTo(ram, root, vs[j]))
    && (forall w: nat :: LeafEntry(ram, root, w) != 0 ==> InLoaded(vs, n, w))
  }

  /** Pages of disjoint areas are different pages. */
  lemma DifferentPages(v: Vma, w: Vma, j: nat, k: nat)
    requires Loadable(v) && Loadable(w) && Loaded(v) && Loaded(w) && Disjoint(v, w)
    requires j < VmaPages(v) && k < VmaPages(w)
    ensures !SamePage(UserPage(v, j), UserPage(w, k))
  {
    LoadPageGood(v, j);
    LoadPageGood(w, k);
    if SamePage(UserPage(v, j), UserPage(w, k)) {
      AlignedSamePage(UserPage(v, j), UserPage(w, k));
    }
  }

  /** All the pages of area `n` were unmapped, so all of them are mapped now. */
  lemma NewlyMapped(ram: Ram, ram': Ram, root: nat, vs: seq<Vma>, n: nat)
    requires n < |vs| && AllLoadable(vs) && Loaded(vs[n]) && MappedFirst(ram, root, vs, n)
    requires forall k :: 0 <= k < PageCount(vs[n].end - vs[n].start) ==> GoodFrame(PageAt(vs[n].lma, k))
    requires MapsRange(ram, ram', root, vs[n].start, vs[n].lma, PageCount(vs[n].end - vs[n].start), AttrsOf(vs[n]))
    ensures MappedTo(ram', root, vs[n])
  {
    hide LeafEntry, Entry, SamePage, PageCount, PageAt;
    var v := vs[n];
    forall k: nat | k < VmaPages(v)
      ensures (LoadPageGood(v, k); LeafEntry(ram', root, UserPage(v, k)) == Entry(LoadPage(v, k), AttrsOf(v)))
    {
      LoadPageGood(v, k);
      if LeafEntry(ram, root, UserPage(v, k)) != 0 {
        var j, i: nat :| 0 <= j < n && Loaded(vs[j]) && i < VmaPages(vs[j]) && SamePage(UserPage(v, k), UserPage(vs[j], i));
        DifferentPages(v, vs[j], k, i);
      }
      assert UserPage(v, k) == PageAt(v.start, k) && LoadPage(v, k) == PageAt(v.lma, k);
    }
  }

  lemma NothingElseMapped(ram: Ram, ram': Ram, root: nat, vs: seq<Vma>, n: nat, w: nat)
    requires n < |vs| && AllLoadable(vs) && Loaded(vs[n]) && MappedFirst(ram, root, vs, n)
    requires forall k :: 0 <= k < PageCount(vs[n].end - vs[n].start) ==> GoodFrame(PageAt(vs[n].lma, k))
    requires MapsRange(ram, ram', root, vs[n].start, vs[n].lma, PageCount(vs[n].end - vs[n].start), AttrsOf(vs[n]))
    requires LeafEntry(ram', root, w) != 0
    ensures InLoaded(vs, n + 1, w)
  {
    hide LeafEntry, Entry, SamePage, PageCount, PageAt;
    var v := vs[n];
    if forall k :: 0 <= k < VmaPages(v) ==> !SamePage(w, PageAt(v.start, k)) {
      assert InLoaded(vs, n, w);
    } else {
      var k :| 0 <= k < VmaPages(v) && SamePage(w, PageAt(v.start, k));
      assert SamePage(w, UserPage(v, k));
    }
  }

  lemma MappedNext(ram: Ram, ram': Ram, root: nat, vs: seq<Vma>, n: nat)
    requires n < |vs| && AllLoadable(vs) && Loaded(vs[n]) && MappedFirst(ram, root, vs, n)
    requires forall k :: 0 <= k < PageCount(vs[n].end - vs[n].start) ==> GoodFrame(PageAt(vs[n].lma, k))
    requires MapsRange(ram, ram', root, vs[n].start, vs[n].lma, PageCount(vs[n].end - vs[n].start), AttrsOf(vs[n]))
    ensures MappedFirst(ram', root, vs, n + 1)
  {
    hide LeafEntry, Entry, SamePage, PageCount, PageAt, InLoaded, MappedTo;
    NewlyMapped(ram, ram', root, vs, n);
    forall j | 0 <= j < n && Loaded(vs[j]) ensures MappedTo(ram', root, vs[j]) {
      EarlierKept(ram, ram', root, vs, n, j);
    }
    forall w: nat | LeafEntry(ram', root, w) != 0 ensures InLoaded(vs, n + 1, w) {
      NothingElseMapped(ram, ram', root, vs, n, w);
    }
  }

  lemma EarlierKept(ram: Ram, ram': Ram, root: nat, vs: seq<Vma>, n: nat, j: nat)
    requires j < n < |vs| && AllLoadable(vs) && Loaded(vs[n]) && Loaded(vs[j]) && MappedTo(ram, root, vs[j])
    requires forall k :: 0 <= k < PageCount(vs[n].end - vs[n].start) ==> GoodFrame(PageAt(vs[n].lma, k))
    requires MapsRange(ram, ram', root, vs[n].start, vs[n].lma, PageCount(vs[n].end - vs[n].start), AttrsOf(vs[n]))
    ensures MappedTo(ram', root, vs[j])
  {
    hide LeafEntry, I0, I1, I2, PageCount, PageAt;
    var v := vs[j];
    forall k: nat | k < VmaPages(v)
      ensures (LoadPageGood(v, k); LeafEntry(ram', root, UserPage(v, k)) == Entry(LoadPage(v, k), AttrsOf(v)))
    {
      LoadPageGood(v, k);
      assert LeafEntry(ram, root, UserPage(v, k)) != 0;
    }
  }

  lemma NoneMapped(ram: Ram, root: nat, vs: seq<Vma>)
    requires AllLoadable(vs) && forall w: nat :: LeafEntry(ram, root, w) == 0
    ensures MappedFirst(ram, root, vs, 0)
  {
  }

  lemma MappedSkip(ram: Ram, root: nat, vs: seq<Vma>, n: nat)
    requires n < |vs| && AllLoadable(vs) && !Loaded(vs[n]) && MappedFirst(ram, root, vs, n)
    ensures MappedFirst(ram, root, vs, n + 1)
  {
    hide LeafEntry, SamePage;
    forall w: nat | LeafEntry(ram, root, w) != 0 ensures InLoaded(vs, n + 1, w) {
      assert InLoaded(vs, n, w);
    }
  }

  /** Maps every loaded area in a fresh directory; not ok when the pool ran dry and the kernel stopped. */
  method SetupUserPageMappings(m: PageMemory, pgDir: nat, vs: seq<Vma>, ghost tabs0: map<nat, Node>)
    returns (ok: bool, ghost tabs: map<nat, Node>)
    requires m.Valid() && TreeOk(m.ram, pgDir, tabs0) && tabs0.Keys <= m.Used()
    requires AllLoadable(vs) && forall w: nat :: LeafEntry(m.ram, pgDir, w) == 0
    modifies m`ram, m.usage
    ensures m.Valid()
    ensures !ok ==> PoolExhausted(m.usage[..])
    ensures ok ==> TreeOk(m.ram, pgDir, tabs) && OnlyTables(old(m.ram), m.ram, old(m.Used()), m.Used(), tabs0, tabs)
    ensures ok ==> MappedFirst(m.ram, pgDir, vs, |vs|)
    ensures ok ==> forall j, a: nat :: 0 <= j < |vs| && vs[j].lma != NO_LMA && vs[j].start <= a < vs[j].end ==>
              LeafEntry(m.ram, pgDir, a) ==
                vs[j].lma + (a - vs[j].start) / 0x1000 * 0x1000 + (if vs[j].write then 0xF53 else 0xFD3)
    ensures ok ==> forall a: nat :: a < 0x80_0000_0000 && LeafEntry(m.ram, pgDir, a) != 0 ==>
              exists j :: 0 <= j < |vs| && vs[j].lma != NO_LMA && vs[j].start <= a && a / 0x1000 * 0x1000 < vs[j].end
  {
    hide LeafEntry, HasLeafTable, TreeOk, OnlyTables, PoolExhausted, MapsRange, MappedFirst, Entry, I0, I1, I2;
    tabs := tabs0;
    ok := true;
    ghost var ram0, used0 := m.ram, m.Used();
    Unmoved(ram0, pgDir, 0, 0, USER_ATTRS, used0, tabs0);
    NoneMapped(ram0, pgDir, vs);
    for i := 0 to |vs|
      invariant m.Valid() && ok && tabs.Keys <= m.Used()
      invariant TreeOk(m.ram, pgDir, tabs) && OnlyTables(ram0, m.ram, used0, m.Used(), tabs0, tabs)
      invariant MappedFirst(m.ram, pgDir, vs, i)
    {
      var v := vs[i];
      if v.lma != NO_LMA {
        ghost var ram1, used1, tabs1 := m.ram, m.Used(), tabs;
        assert Loadable(v);
        ok, tabs := AddSingleMap(m, pgDir, v.lma, v.start, v.end - v.start, AttrsOf(v), tabs);
        if !ok {
          return;
        }
        UsedTables(ram1, m.ram, used1, m.Used(), tabs1, tabs);
        OnlyTablesTrans(ram0, ram1, m.ram, used0, used1, m.Used(), tabs0, tabs1, tabs);
        MappedNext(ram1, m.ram, pgDir, vs, i);
      } else {
        MappedSkip(m.ram, pgDir, vs, i);
      }
    }
    ReadOff(m.ram, pgDir, vs);
  }

  /** What the mappings of a whole list say of single addresses. */
  lemma ReadOff(ram: Ram, root: nat, vs: seq<Vma>)
    requires AllLoadable(vs) && MappedFirst(ram, root, vs, |vs|)
    ensures forall j, a: nat :: 0 <= j < |vs| && vs[j].lma != NO_LMA && vs[j].start <= a < vs[j].end ==>
              LeafEntry(ram, root, a) == vs[j].lma + (a - vs[j].start) / 0x1000 * 0x1000 + (if vs[j].write then 0xF53 else 0xFD3)
    ensures forall a: nat :: a < 0x80_0000_0000 && LeafEntry(ram, root, a) != 0 ==>
              exists j :: 0 <= j < |vs| && vs[j].lma != NO_LMA && vs[j].start <= a && a / 0x1000 * 0x1000 < vs[j].end
  {
    hide LeafEntry, Entry, SamePage, PageCount, PageAt, MappedTo;
    forall j, a: nat | 0 <= j < |vs| && vs[j].lma != NO_LMA && vs[j].start <= a < vs[j].end
      ensures LeafEntry(ram, root, a) == vs[j].lma + (a - vs[j].start) / 0x1000 * 0x1000 + (if vs[j].write then 0xF53 else 0xFD3)
    {
      EntryAt(ram, root, vs[j], a);
    }
    forall a: nat | a < 0x80_0000_0000 && LeafEntry(ram, root, a) != 0
      ensures exists j :: 0 <= j < |vs| && vs[j].lma != NO_LMA && vs[j].start <= a && a / 0x1000 * 0x1000 < vs[j].end
    {
      var j, k: nat :| 0 <= j < |vs| && Loaded(vs[j]) && k < VmaPages(vs[j]) && SamePage(a, UserPage(vs[j], k));
      LoadPageGood(vs[j], k);
      InPageIff(a, UserPage(vs[j], k));
      FirstOfPage(a, UserPage(vs[j], k));
    }
  }

  lemma FirstOfPage(a: nat, p: nat)
    requires p % PAGE_SIZE == 0 && p <= a < p + PAGE_SIZE
    ensures a / 0x1000 * 0x1000 == p
  {
  }
}
