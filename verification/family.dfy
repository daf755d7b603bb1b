/**
 * Programs that fork: what a life leaves is what the next fork asks for, a child is an address space like
 * any other, and what becomes of the pages fork recorded for it without mapping them.
 */
module Families {
  import opened Arith
  import opened Bytes
  import opened Descriptor
  import opened Machine
  import opened PageTable
  import opened VmBlocks
  import opened AddressSpace
  import opened DemandPaging
  import opened VmSetup
  import opened Brk
  import opened Lives
  import opened Fork

  // ---------------------------------------------------------------------------------------
  // The shape fork relies on

  /** The frames a loaded area reads exist; those in the pool belong to `world`, the pages in use outside all of this, or to the area's own blocks. */
  ghost predicate FramesHeld(ram: Ram, world: set<nat>, v: Vma) {
    forall k: nat :: k < VmaPages(v) ==> FrameHeld(ram, world, v, Va(LoadPage(v, k)))
  }

  ghost predicate FrameHeld(ram: Ram, world: set<nat>, v: Vma, f: nat) {
    f in ram && (InPool(f) ==> f in world || (!v.shared && f in BlocksPages(v.blocks)))
  }

  /** A loaded area is mapped where it is loaded, on frames that are held. */
  ghost predicate Backed(ram: Ram, root: nat, world: set<nat>, v: Vma) {
    Loaded(v) ==> Loadable(v) && MappedTo(ram, root, v) && FramesHeld(ram, world, v)
  }

  ghost predicate Shape(ram: Ram, root: nat, world: set<nat>, vs: seq<Vma>) {
    Forkable(vs) && forall j :: 0 <= j < |vs| ==> Backed(ram, root, world, vs[j])
  }

  /** An address space in order and in shape may be forked. */
  lemma MayFork(m: PageMemory, t: Task, base: set<nat>, world: set<nat>)
    requires SpaceOk(m, t, base) && Shape(m.ram, t.pgDir, world, t.mmap) && world <= base
    ensures m.Valid() && TreeOk(m.ram, t.pgDir, t.tabs) && t.tabs.Keys <= m.Used() && base <= m.Used()
    ensures Forkable(t.mmap) && forall j :: 0 <= j < |t.mmap| ==> Readable(m.ram, t.pgDir, m.Used(), t.mmap[j])
  {
    hide LeafEntry, TreeOk, GraphOn, BelowBrk, HeapInside, Layout, LoadedMapped, MappedTo, Forkable, Readable,
         OwnedPages, BlocksPages, UsedSet;
    LedgerTables(m.Used(), base, t.tabs, t.mmap, t.leaked + t.lost);
    forall j | 0 <= j < |t.mmap| ensures Readable(m.ram, t.pgDir, m.Used(), t.mmap[j]) {
      PrivateUnlessLoaded(t.mmap, t.startBrk, t.brk, j);
      AreaReadable(m, t.pgDir, world, t.mmap, j);
    }
  }

  lemma PrivateUnlessLoaded(vs: seq<Vma>, startBrk: nat, brk: nat, j: nat)
    requires Layout(vs, startBrk, brk) && j < |vs|
    ensures vs[j].shared ==> Loaded(vs[j])
  {
  }

  lemma AreaReadable(m: PageMemory, root: nat, world: set<nat>, vs: seq<Vma>, j: nat)
    requires m.Valid() && GoodVmas(vs) && j < |vs| && world <= m.Used() && OwnedPages(vs) <= multiset(m.Used())
    requires Backed(m.ram, root, world, vs[j]) && (vs[j].shared ==> Loaded(vs[j]))
    ensures Readable(m.ram, root, m.Used(), vs[j])
  {
    hide LeafEntry, OwnedPages, BlocksPages, UsedSet, InPool, PhyAddr, Entry, PageAt, MappedTo;
    var v, used := vs[j], m.Used();
    if Loaded(v) {
      if !v.shared {
        forall k: nat | k < VmaPages(v) ensures HeldFrame(m.ram, SourcePage(m.ram, root, v, k), used) {
          MappedReads(m.ram, root, v, k);
          assert FrameHeld(m.ram, world, v, Va(LoadPage(v, k)));
          OwnedUsed(vs, j, used, Va(LoadPage(v, k)));
        }
      }
    } else {
      BlocksHeld(m, vs, j);
    }
  }

  lemma BlocksHeld(m: PageMemory, vs: seq<Vma>, j: nat)
    requires m.Valid() && GoodVmas(vs) && j < |vs| && OwnedPages(vs) <= multiset(m.Used()) && !vs[j].shared
    ensures forall i :: 0 <= i < |vs[j].blocks| ==> vs[j].blocks[i].linearAddr in m.ram && vs[j].blocks[i].linearAddr in m.Used()
  {
    hide OwnedPages, BlocksPages, UsedSet;
    var bs := vs[j].blocks;
    assert GoodBlocks(bs);
    forall i | 0 <= i < |bs| ensures bs[i].linearAddr in m.ram && bs[i].linearAddr in m.Used() {
      assert GoodBlock(bs[i]);
      PoolPageThere(m, bs[i].linearAddr);
      BlockStarts(bs, bs[i]);
      OwnedUsed(vs, j, m.Used(), bs[i].linearAddr);
    }
  }

  /** The first frame of a block is one of its pages. */
  lemma BlockStarts(bs: seq<PagesBlock>, b: PagesBlock)
    requires b in bs
    ensures b.linearAddr in BlocksPages(bs)
  {
    SubBlocks(bs, b);
    assert b.linearAddr + PAGE_SIZE * 0 in Pages(b.linearAddr, Pow2(b.order));
    assert BlocksPages(bs)[b.linearAddr] >= BlockPages(b)[b.linearAddr] >= 1;
  }

  /** Pages of a private area's blocks are in use. */
  lemma OwnedUsed(vs: seq<Vma>, j: nat, used: set<nat>, f: nat)
    requires j < |vs| && OwnedPages(vs) <= multiset(used)
    ensures !vs[j].shared && f in BlocksPages(vs[j].blocks) ==> f in used
  {
    hide BlocksPages;
    if !vs[j].shared && f in BlocksPages(vs[j].blocks) {
      OwnedUpdate(vs, j, vs[j].(blocks := []));
      NoBlocks();
      PartOf(OwnedPages(vs), OwnedPages(vs[j := vs[j].(blocks := [])]), BlocksPages(vs[j].blocks));
      assert multiset(used)[f] >= OwnedPages(vs)[f] >= BlocksPages(vs[j].blocks)[f] > 0;
    }
  }

  // ---------------------------------------------------------------------------------------
  // Events keep the shape

  /** Translations of a loaded area that is mapped do not depend on pages outside it. */
  lemma StillMapped(ram: Ram, ram': Ram, root: nat, v: Vma)
    requires Loadable(v) && Loaded(v) && MappedTo(ram, root, v)
    requires forall k: nat :: k < VmaPages(v) ==> LeafEntry(ram', root, UserPage(v, k)) == LeafEntry(ram, root, UserPage(v, k))
    ensures MappedTo(ram', root, v)
  {
    hide LeafEntry, Entry, PageAt;
    forall k: nat | k < VmaPages(v)
      ensures (LoadPageGood(v, k); LeafEntry(ram', root, UserPage(v, k)) == Entry(LoadPage(v, k), AttrsOf(v)))
    {
      LoadPageGood(v, k);
    }
  }

  /** A fault, which brings in a page that was not mapped, leaves loaded areas alone. */
  lemma FaultBacked(ram: Ram, ram': Ram, root: nat, world: set<nat>, used: set<nat>, v: Vma, addr: nat, page: nat)
    requires Backed(ram, root, world, v) && Loaded(v) && LeafEntry(ram, root, addr) == 0 && ram'.Keys == ram.Keys
    requires BroughtIn(ram, ram', root, used, addr, page)
    ensures Backed(ram', root, world, v)
  {
    hide LeafEntry, Entry, PageAt, BlocksPages, InPool, Next, SamePage;
    forall k: nat | k < VmaPages(v) ensures LeafEntry(ram', root, UserPage(v, k)) == LeafEntry(ram, root, UserPage(v, k)) {
      LoadPageGood(v, k);
      assert LeafEntry(ram, root, UserPage(v, k)) != 0;
      if SamePage(UserPage(v, k), addr) { SamePageEntry(ram, root, UserPage(v, k), addr); }
    }
    StillMapped(ram, ram', root, v);
    forall k: nat | k < VmaPages(v) ensures FrameHeld(ram', world, v, Va(LoadPage(v, k))) {
      assert FrameHeld(ram, world, v, Va(LoadPage(v, k)));
    }
  }

  /** A shrink, which clears pages of the heap region only, leaves loaded areas alone. */
  lemma ShrinkBacked(ram: Ram, ram': Ram, root: nat, world: set<nat>, v: Vma, startBrk: nat, lo: nat, hi: nat)
    requires Backed(ram, root, world, v) && Loaded(v) && Apart(v, startBrk) && ram'.Keys == ram.Keys
    requires ClearsRange(ram, ram', root, lo, hi) && startBrk <= lo && hi <= MAX_BRK_ADDR
    ensures Backed(ram', root, world, v)
  {
    hide LeafEntry, Entry, PageAt, BlocksPages, InPool;
    forall k: nat | k < VmaPages(v) ensures LeafEntry(ram', root, UserPage(v, k)) == LeafEntry(ram, root, UserPage(v, k)) {
      LoadPageGood(v, k);
    }
    StillMapped(ram, ram', root, v);
    forall k: nat | k < VmaPages(v) ensures FrameHeld(ram', world, v, Va(LoadPage(v, k))) {
      assert FrameHeld(ram, world, v, Va(LoadPage(v, k)));
    }
  }

  lemma RecordedForkable(vs: seq<Vma>, i: nat, b: PagesBlock)
    requires Forkable(vs) && i < |vs| && !Loaded(vs[i]) && vs[i].start < vs[i].end && b.userVirtAddr != NULL
    ensures Forkable(Recorded(vs, i, b))
  {
    var ws := Recorded(vs, i, b);
    assert forall j :: 0 <= j < |vs| ==> ws[j].start == vs[j].start && ws[j].end == vs[j].end && ws[j].lma == vs[j].lma && ws[j].shared == vs[j].shared;
    assert forall j :: 0 <= j < |vs| && j != i ==> ws[j] == vs[j];
    assert forall k :: 0 <= k < |ws[i].blocks| ==> ws[i].blocks[k] == if k < |vs[i].blocks| then vs[i].blocks[k] else b;
  }

  lemma TrimmedForkable(vs: seq<Vma>, i: nat, lo: nat, hi: nat)
    requires Forkable(vs) && i < |vs| && !Loaded(vs[i])
    ensures Forkable(Trimmed(vs, i, lo, hi))
  {
    var bs, rs := vs[i].blocks, Outside(vs[i].blocks, lo, hi);
    forall k | 0 <= k < |rs| ensures rs[k].userVirtAddr != NULL {
      assert rs[k] in bs;
      var j :| 0 <= j < |bs| && bs[j] == rs[k];
    }
    if bs == [] { assert rs == []; }
    hide Outside;
    var ws := Trimmed(vs, i, lo, hi);
    assert forall j :: 0 <= j < |vs| ==> ws[j].start == vs[j].start && ws[j].end == vs[j].end && ws[j].lma == vs[j].lma && ws[j].shared == vs[j].shared;
    assert forall j :: 0 <= j < |vs| && j != i ==> ws[j] == vs[j];
  }

  /** The heap area, grown, shrunk or created, stays apart from all others. */
  lemma SettledForkable(vs: seq<Vma>, startBrk: nat, oldBrk: nat, brk: nat, kmallocOk: bool)
    requires Forkable(vs) && Layout(vs, startBrk, oldBrk) && startBrk <= brk <= MAX_BRK_ADDR
    requires var i := FindVma(vs, startBrk, 0); i < |vs| && brk == startBrk ==> vs[i].blocks == []
    ensures Forkable(Settled(vs, startBrk, brk, kmallocOk))
  {
    var i := FindVma(vs, startBrk, 0);
    var ws := Settled(vs, startBrk, brk, kmallocOk);
    SettledDisjoint(vs, startBrk, oldBrk, brk, kmallocOk);
    if i < |vs| {
      HeapDemand(vs, startBrk, oldBrk);
      HeapForkable(vs[i], startBrk, brk);
    } else {
      HeapForkable(Vma(startBrk, brk, false, true, NO_LMA, []), startBrk, brk);
    }
    hide FindVma, AreaForkable, Loadable, Layout;
    forall j | 0 <= j < |ws| ensures Loadable(ws[j]) && AreaForkable(ws[j]) {
      if i < |vs| {
        if j != i { assert ws[j] == vs[j]; }
      } else if kmallocOk {
        if j > 0 { assert ws[j] == vs[j - 1]; }
      }
    }
  }

  lemma HeapForkable(v: Vma, startBrk: nat, brk: nat)
    requires !Loaded(v) && !v.shared && v.start == startBrk <= brk <= MAX_BRK_ADDR && (brk == startBrk ==> v.blocks == [])
    requires forall i :: 0 <= i < |v.blocks| ==> v.blocks[i].userVirtAddr != NULL
    ensures Loadable(v.(end := brk)) && AreaForkable(v.(end := brk))
  {
  }

  lemma SettledDisjoint(vs: seq<Vma>, startBrk: nat, oldBrk: nat, brk: nat, kmallocOk: bool)
    requires AllLoadable(vs) && Layout(vs, startBrk, oldBrk) && startBrk <= brk <= MAX_BRK_ADDR
    ensures var ws := Settled(vs, startBrk, brk, kmallocOk); forall a, b :: 0 <= a < b < |ws| ==> Disjoint(ws[a], ws[b])
  {
    hide FindVma, Disjoint, Loadable;
    var i := FindVma(vs, startBrk, 0);
    var ws := Settled(vs, startBrk, brk, kmallocOk);
    forall a, b | 0 <= a < b < |ws| ensures Disjoint(ws[a], ws[b]) {
      if i < |vs| {
        assert Disjoint(vs[a], vs[b]);
        if a == i { ApartDisjoint(ws[i], vs[b], startBrk, brk); } else if b == i { ApartDisjoint(ws[i], vs[a], startBrk, brk); }
      } else if kmallocOk {
        assert ws[b] == vs[b - 1];
        if a == 0 { ApartDisjoint(ws[0], vs[b - 1], startBrk, brk); } else { assert ws[a] == vs[a - 1] && Disjoint(vs[a - 1], vs[b - 1]); }
      } else {
        assert Disjoint(vs[a], vs[b]);
      }
    }
  }

  lemma ApartDisjoint(h: Vma, v: Vma, startBrk: nat, brk: nat)
    requires h.start == startBrk && h.end == brk <= MAX_BRK_ADDR && (Apart(v, startBrk) || v.start == v.end == startBrk)
    ensures Disjoint(h, v) && Disjoint(v, h)
  {
  }

  /** After a fault. */
  lemma ShapeFault(s: Space, t: Space, addr: nat, kmallocOk: bool, page: nat, world: set<nat>)
    requires Orderly(s) && Shape(s.ram, s.pgDir, world, s.mmap) && t.pgDir == s.pgDir && t.ram.Keys == s.ram.Keys
    requires LeafEntry(s.ram, s.pgDir, addr) == 0 && FaultTaken(s, addr, kmallocOk, page, t)
    ensures Shape(t.ram, t.pgDir, world, t.mmap)
  {
    hide LeafEntry, BroughtIn, Backed, Forkable, UsedSet, HeapInside, BelowBrk, HeapList, UpperPageAddr;
    var i, b := FindVma(s.mmap, addr, 0), PagesBlock(PageAddr(addr), page, 0);
    FaultingArea(s.ram, s.pgDir, s.mmap, s.startBrk, s.brk, addr);
    FoundThere(s.mmap, addr);
    hide Layout, LoadedMapped, FindVma, PageAddr;
    RecordedForkable(s.mmap, i, b);
    forall j | 0 <= j < |t.mmap| ensures Backed(t.ram, t.pgDir, world, t.mmap[j]) {
      if j == i || !Loaded(s.mmap[j]) {
        NotLoaded(t.ram, t.pgDir, world, t.mmap[j]);
      } else {
        FaultBacked(s.ram, t.ram, s.pgDir, world, UsedSet(s.usage), s.mmap[j], addr, page);
      }
    }
  }

  lemma NotLoaded(ram: Ram, root: nat, world: set<nat>, v: Vma)
    requires !Loaded(v)
    ensures Backed(ram, root, world, v)
  {
  }

  /** After a sys_brk. */
  lemma ShapeBrk(s: Space, t: Space, addr: nat, kmallocOk: bool, world: set<nat>)
    requires Orderly(s) && Shape(s.ram, s.pgDir, world, s.mmap) && t.pgDir == s.pgDir && t.ram.Keys == s.ram.Keys
    requires BrkMoved(s, addr, kmallocOk, t)
    ensures Shape(t.ram, t.pgDir, world, t.mmap)
  {
    hide LeafEntry, ClearsRange, Backed, Forkable, UsedSet, BlocksPages, Inside, Outside, MappedBlocks, LoadedMapped,
         UpperPageAddr;
    var lo, hi, i := UpperPageAddr(addr), UpperPageAddr(s.brk), FindVma(s.mmap, s.startBrk, 0);
    LayoutBounds(s.mmap, s.startBrk, s.brk);
    if i < |s.mmap| { HeapNonEmpty(s.mmap, s.startBrk, s.brk); HeapDemand(s.mmap, s.startBrk, s.brk); }
    if Accepted(addr, s.startBrk) && lo < hi {
      UpperMono(s.startBrk, addr);
      UpperMono(s.brk, MAX_BRK_ADDR);
      var vs := Trimmed(s.mmap, i, lo, hi);
      TrimmedLayout(s.mmap, s.startBrk, s.brk, lo, hi);
      if addr == s.startBrk { AllTrimmed(s.mmap, s.startBrk, s.brk, s.lost); }
      TrimmedForkable(s.mmap, i, lo, hi);
      SettledForkable(vs, s.startBrk, s.brk, addr, kmallocOk);
      forall j | 0 <= j < |s.mmap| && Loaded(s.mmap[j]) ensures Backed(t.ram, t.pgDir, world, s.mmap[j]) {
        LoadedApart(s.mmap, s.startBrk, s.brk, j);
        ShrinkBacked(s.ram, t.ram, s.pgDir, world, s.mmap[j], s.startBrk, lo, hi);
      }
      SettledBacked(s.mmap, vs, t.mmap, t.ram, t.pgDir, world, s.startBrk, s.brk, addr, kmallocOk);
    } else {
      if Accepted(addr, s.startBrk) { StartsBelow(s.startBrk, s.brk, addr); }
      SettledForkable(s.mmap, s.startBrk, s.brk, t.brk, kmallocOk);
      SettledBacked(s.mmap, s.mmap, t.mmap, t.ram, t.pgDir, world, s.startBrk, s.brk, t.brk, kmallocOk);
    }
  }

  lemma HeapDemand(vs: seq<Vma>, startBrk: nat, brk: nat)
    requires Layout(vs, startBrk, brk) && FindVma(vs, startBrk, 0) < |vs|
    ensures var v := vs[FindVma(vs, startBrk, 0)]; !Loaded(v) && !v.shared && v.start == startBrk
  {
  }

  lemma LoadedApart(vs: seq<Vma>, startBrk: nat, brk: nat, j: nat)
    requires Layout(vs, startBrk, brk) && j < |vs| && Loaded(vs[j])
    ensures Apart(vs[j], startBrk)
  {
  }

  /** Only areas without a load address differ after sys_brk. */
  lemma SettledBacked(us: seq<Vma>, vs: seq<Vma>, ws: seq<Vma>, ram: Ram, root: nat, world: set<nat>, startBrk: nat,
          oldBrk: nat, brk: nat, kmallocOk: bool)
    requires Layout(us, startBrk, oldBrk) && ws == Settled(vs, startBrk, brk, kmallocOk)
    requires FindVma(vs, startBrk, 0) == FindVma(us, startBrk, 0) && |vs| == |us|
    requires forall j :: 0 <= j < |us| && j != FindVma(us, startBrk, 0) ==> vs[j] == us[j]
    requires FindVma(us, startBrk, 0) < |us| ==> !Loaded(vs[FindVma(us, startBrk, 0)])
    requires forall j :: 0 <= j < |us| && Loaded(us[j]) ==> Backed(ram, root, world, us[j])
    ensures forall j :: 0 <= j < |ws| ==> Backed(ram, root, world, ws[j])
  {
    hide Backed, Layout, FindVma, Settled;
    forall j | 0 <= j < |ws| ensures Backed(ram, root, world, ws[j]) {
      var k := SettledArea(vs, startBrk, brk, kmallocOk, j);
      if !Loaded(ws[j]) {
        NotLoaded(ram, root, world, ws[j]);
      } else {
        assert ws[j] == us[k];
      }
    }
  }

  /** An area after sys_brk that is loaded was there before, and is not the heap area. */
  lemma SettledArea(vs: seq<Vma>, startBrk: nat, brk: nat, kmallocOk: bool, j: nat) returns (k: nat)
    requires j < |Settled(vs, startBrk, brk, kmallocOk)|
    requires FindVma(vs, startBrk, 0) < |vs| ==> !Loaded(vs[FindVma(vs, startBrk, 0)])
    ensures var v := Settled(vs, startBrk, brk, kmallocOk)[j];
            Loaded(v) ==> k < |vs| && v == vs[k] && k != FindVma(vs, startBrk, 0)
  {
    hide FindVma;
    k := if FindVma(vs, startBrk, 0) == |vs| && kmallocOk && j > 0 then j - 1 else j;
  }

  /** One event keeps the shape. */
  lemma ShapeStep(s: Space, e: Event, page: nat, t: Space, world: set<nat>)
    requires Orderly(s) && Shape(s.ram, s.pgDir, world, s.mmap) && InDomain(s, e) && Handled(s, e, page, t)
    ensures Shape(t.ram, t.pgDir, world, t.mmap)
  {
    hide Shape, Orderly, FaultTaken, BrkMoved, Kills, PoolExhausted, LeafEntry, MayCall;
    match e
    case Fault(addr, kmallocOk) =>
      if t != s { ShapeFault(s, t, addr, kmallocOk, page, world); }
    case SetBrk(addr, kmallocOk) =>
      ShapeBrk(s, t, addr, kmallocOk, world);
  }

  /** The shape is kept over any run. */
  lemma {:induction false} ShapeRun(run: seq<Space>, events: seq<Event>, pages: seq<nat>, world: set<nat>, n: nat)
    requires IsRun(run, events, pages) && n <= |pages| && Shape(run[0].ram, run[0].pgDir, world, run[0].mmap)
    requires forall k :: 0 <= k <= |pages| ==> Orderly(run[k])
    ensures Shape(run[n].ram, run[n].pgDir, world, run[n].mmap)
  {
    if n > 0 {
      ShapeRun(run, events, pages, world, n - 1);
      assert StepAt(run, events, pages, n - 1);
      hide Shape, Orderly, Handled, InDomain;
      ShapeStep(run[n - 1], events[n - 1], pages[n - 1], run[n], world);
    }
  }

  /** The areas a program may start with, if it is to fork: loaded ones on frames of `world` or outside the pool. */
  ghost predicate StartAreas(ram: Ram, world: set<nat>, vs: seq<Vma>) {
    Forkable(vs) && forall j :: 0 <= j < |vs| && Loaded(vs[j]) ==> FramesHeld(ram, world, vs[j])
  }

  lemma StartShape(ram: Ram, ram': Ram, root: nat, world: set<nat>, vs: seq<Vma>)
    requires StartAreas(ram, world, vs) && ram'.Keys == ram.Keys && MappedFirst(ram', root, vs, |vs|)
    ensures Shape(ram', root, world, vs)
  {
    hide MappedTo, AreaForkable, BlocksPages, InPool;
    forall j, k: nat | 0 <= j < |vs| && Loaded(vs[j]) && k < VmaPages(vs[j]) ensures FrameHeld(ram', world, vs[j], Va(LoadPage(vs[j], k))) {
      assert FramesHeld(ram, world, vs[j]);
      assert FrameHeld(ram, world, vs[j], Va(LoadPage(vs[j], k)));
    }
  }

  // ---------------------------------------------------------------------------------------
  // A child is an address space

  /** What a copy has in common with the area it was made from. */
  ghost predicate Alike(v: Vma, c: Vma) {
    && c.start == v.start && c.end == v.end && c.shared == v.shared && (Loaded(c) <==> Loaded(v))
    && (v.shared ==> c.lma == v.lma)
    && (!v.shared && !Loaded(v) ==>
          && |c.blocks| == |v.blocks|
          && forall i :: 0 <= i < |v.blocks| ==> c.blocks[i].userVirtAddr == v.blocks[i].userVirtAddr && c.blocks[i].order == 0)
  }

  /** The child's list is like the parent's, in reverse order. */
  ghost predicate Reversed(vs: seq<Vma>, cs: seq<Vma>) {
    |cs| == |vs| && forall k :: 0 <= k < |cs| ==> Alike(vs[|vs| - 1 - k], cs[k])
  }

  lemma ClonesReversed(ram0: Ram, ram: Ram, root: nat, used0: set<nat>, used: set<nat>, vs: seq<Vma>, cs: seq<Vma>)
    requires Clones(ram0, ram, root, used0, used, vs, cs, |vs|)
    ensures Reversed(vs, cs)
  {
    hide LeafEntry, SameBytes, SameContents, Pages;
    var n := |vs|;
    forall k | 0 <= k < n ensures Alike(vs[n - 1 - k], cs[k]) {
      var v, c := vs[n - 1 - k], cs[n - 1 - (n - 1 - k)];
      assert Clone(ram0, ram, root, used0, used, v, c);
      if !v.shared && Loaded(v) { LoadedAddr(c.blocks[0].linearAddr); }
    }
  }

  /** The heap area of the child is the copy of the parent's. */
  lemma ChildHeap(vs: seq<Vma>, cs: seq<Vma>, startBrk: nat, brk: nat)
    requires Layout(vs, startBrk, brk) && Reversed(vs, cs)
    ensures var i, k := FindVma(vs, startBrk, 0), FindVma(cs, startBrk, 0); (i == |vs| <==> k == |cs|) && (i < |vs| ==> k == |vs| - 1 - i)
  {
    var i, k, n := FindVma(vs, startBrk, 0), FindVma(cs, startBrk, 0), |vs|;
    if k < n { assert Covers(vs[n - 1 - k], startBrk) && n - 1 - k == i; }
    if i < n { assert Covers(cs[n - 1 - i], startBrk); }
  }

  lemma ChildLayout(vs: seq<Vma>, cs: seq<Vma>, startBrk: nat, brk: nat)
    requires Layout(vs, startBrk, brk) && Reversed(vs, cs)
    ensures Layout(cs, startBrk, brk)
  {
    ChildHeap(vs, cs, startBrk, brk);
    hide FindVma;
    forall k | 0 <= k < |cs| ensures Alike(vs[|vs| - 1 - k], cs[k]) {}
  }

  lemma ChildHeapList(vs: seq<Vma>, cs: seq<Vma>, startBrk: nat, brk: nat, lost: seq<PagesBlock>)
    requires Layout(vs, startBrk, brk) && Reversed(vs, cs)
    requires BelowBrk(HeapList(vs, startBrk) + lost, startBrk, brk) && HeapInside(vs, startBrk)
    ensures BelowBrk(HeapList(cs, startBrk), startBrk, brk) && HeapInside(cs, startBrk)
    ensures |HeapList(cs, startBrk)| == |HeapList(vs, startBrk)|
    ensures forall i :: 0 <= i < |HeapList(vs, startBrk)| ==>
              HeapList(cs, startBrk)[i].userVirtAddr == HeapList(vs, startBrk)[i].userVirtAddr && HeapList(cs, startBrk)[i].order == 0
  {
    ChildHeap(vs, cs, startBrk, brk);
    if FindVma(vs, startBrk, 0) < |vs| { HeapDemand(vs, startBrk, brk); }
    var bs, ds := HeapList(vs, startBrk), HeapList(cs, startBrk);
    hide FindVma, UpperPageAddr;
    forall b | b in ds ensures InRange(b, startBrk, MAX_BRK_ADDR) && b.userVirtAddr < UpperPageAddr(brk) {
      var i :| 0 <= i < |ds| && ds[i] == b;
      assert bs[i] in bs + lost;
    }
  }

  /** The child is in order beside everything in use before the fork; its heap pages are all stale. */
  lemma ChildInOrder(m: PageMemory, child: Task, ram0: Ram, root: nat, used0: set<nat>, vs: seq<Vma>,
          lost: seq<PagesBlock>)
    requires m.Valid() && TreeOk(m.ram, child.pgDir, child.tabs) && AllLoadable(child.mmap) && GoodVmas(child.mmap)
    requires Clones(ram0, m.ram, root, used0, m.Used(), vs, child.mmap, |vs|) && MappedFirst(m.ram, child.pgDir, child.mmap, |child.mmap|)
    requires ForkLedger(m.Used(), used0, child.tabs, child.mmap)
    requires child.lost == [] && child.leaked == [] && child.stale == HeapList(child.mmap, child.startBrk)
    requires Layout(vs, child.startBrk, child.brk)
    requires BelowBrk(HeapList(vs, child.startBrk) + lost, child.startBrk, child.brk) && HeapInside(vs, child.startBrk)
    ensures SpaceOk(m, child, used0) && OnePageEach(View(m, child))
  {
    hide LeafEntry, Clones, TreeOk, MappedFirst, OwnedPages, AllLoadable, GoodVmas, LoadedMapped, GraphOn, BelowBrk,
         HeapInside, Layout, HeapList, UsedSet;
    var cs, startBrk, brk := child.mmap, child.startBrk, child.brk;
    ClonesReversed(ram0, m.ram, root, used0, m.Used(), vs, cs);
    ChildLayout(vs, cs, startBrk, brk);
    ChildHeapList(vs, cs, startBrk, brk, lost);
    forall k | 0 <= k < |cs| && Loaded(cs[k]) ensures Apart(cs[k], startBrk) { LoadedApart(cs, startBrk, brk, k); }
    FreshGraph(m.ram, child.pgDir, cs, startBrk);
    NoBlocks();
    assert child.leaked + child.lost == [];
    assert HeapList(cs, startBrk) + child.lost == HeapList(cs, startBrk);
    assert MappedBlocks(cs, startBrk, child.stale, child.lost) == [];
  }

  /** The child can fork in its turn: what it shares is the world's, its copies are its own. */
  lemma ChildShape(m: PageMemory, pgDir: nat, cs: seq<Vma>, ram0: Ram, root: nat, used0: set<nat>, vs: seq<Vma>,
          world: set<nat>)
    requires m.Valid() && m.ram.Keys == ram0.Keys && Shape(ram0, root, world, vs) && world <= used0
    requires Clones(ram0, m.ram, root, used0, m.Used(), vs, cs, |vs|)
    requires AllLoadable(cs) && MappedFirst(m.ram, pgDir, cs, |cs|)
    ensures Shape(m.ram, pgDir, world, cs)
  {
    hide LeafEntry, Clone, Clones, MappedTo, UsedSet, Backed, AreaForkable, Loadable, Disjoint;
    var n := |vs|;
    ClonesReversed(ram0, m.ram, root, used0, m.Used(), vs, cs);
    forall k | 0 <= k < n ensures AreaForkable(cs[k]) && Backed(m.ram, pgDir, world, cs[k]) {
      var v := vs[n - 1 - k];
      assert AreaForkable(v) && Backed(ram0, root, world, v);
      assert Alike(v, cs[k]);
      OneClone(ram0, m.ram, root, used0, m.Used(), vs, cs, k);
      AlikeForkable(v, cs[k]);
      CopyBacked(m, pgDir, ram0, root, used0, world, v, cs[k]);
    }
  }

  lemma OneClone(ram0: Ram, ram: Ram, root: nat, used0: set<nat>, used: set<nat>, vs: seq<Vma>, cs: seq<Vma>, k: nat)
    requires Clones(ram0, ram, root, used0, used, vs, cs, |vs|) && k < |cs|
    ensures Clone(ram0, ram, root, used0, used, vs[|vs| - 1 - k], cs[k])
  {
    hide Clone;
    var j := |vs| - 1 - k;
    assert cs[|vs| - 1 - j] == cs[k];
  }

  lemma AlikeForkable(v: Vma, c: Vma)
    requires AreaForkable(v) && Alike(v, c)
    ensures AreaForkable(c)
  {
  }

  lemma CopyBacked(m: PageMemory, pgDir: nat, ram0: Ram, root: nat, used0: set<nat>, world: set<nat>, v: Vma, c: Vma)
    requires m.Valid() && m.ram.Keys == ram0.Keys && Backed(ram0, root, world, v) && Clone(ram0, m.ram, root, used0, m.Used(), v, c)
    requires Loadable(c) && Alike(v, c) && (Loaded(c) ==> MappedTo(m.ram, pgDir, c))
    ensures Backed(m.ram, pgDir, world, c)
  {
    hide LeafEntry, MappedTo, UsedSet, SameBytes, InPool, Pages, BlocksPages, PageAt;
    if Loaded(c) {
      forall k: nat | k < VmaPages(c) ensures FrameHeld(m.ram, world, c, Va(LoadPage(c, k))) {
        if v.shared {
          assert FrameHeld(ram0, world, v, Va(LoadPage(v, k)));
        } else {
          var b := c.blocks[0];
          PageInBlock(b.linearAddr, Pow2(b.order), k);
          PageInPool(b.linearAddr, Pow2(b.order), k);
          PaPage(b.linearAddr, k);
          PoolPageThere(m, PageAt(b.linearAddr, k));
          BlocksOne(b);
          assert c.blocks == [b];
          assert PageAt(b.linearAddr, k) in BlockPages(b);
        }
      }
    }
  }

  // ---------------------------------------------------------------------------------------
  // Bystanders

  /** SpaceOk, of the values alone. */
  ghost predicate Intact(s: Space, base: set<nat>) {
    && TreeOk(s.ram, s.pgDir, s.tabs)
    && Ledger(UsedSet(s.usage), base, s.tabs, s.mmap, s.leaked + s.lost)
    && GoodVmas(s.mmap) && GoodBlocks(s.lost)
    && Orderly(s)
    && s.stale <= HeapList(s.mmap, s.startBrk)
    && GraphOn(s.ram, s.pgDir, MappedBlocks(s.mmap, s.startBrk, s.stale, s.lost), s.startBrk, MAX_BRK_ADDR)
  }

  lemma IntactIff(m: PageMemory, t: Task, base: set<nat>)
    ensures SpaceOk(m, t, base) <==> m.Valid() && Intact(View(m, t), base)
  {
    hide TreeOk, Ledger, GoodVmas, GoodBlocks, Layout, LoadedMapped, GraphOn, BelowBrk, HeapInside, HeapList,
         MappedBlocks, UsedSet;
  }

  /** The same process after something else happened on the machine. */
  function Aside(s: Space, ram: Ram, usage: seq<bool>): Space { s.(ram := ram, usage := usage) }

  /** The pages of a process: its page table, its blocks, and the pages no list records. */
  ghost function Mine(s: Space): set<nat> {
    s.tabs.Keys + (set f | f in OwnedPages(s.mmap)) + (set f | f in BlocksPages(s.leaked + s.lost))
  }

  /** They are all the pages in use beyond those it is in order beside. */
  lemma MineApart(s: Space, base: set<nat>)
    requires Intact(s, base)
    ensures Mine(s) == UsedSet(s.usage) - base && base == UsedSet(s.usage) - Mine(s)
  {
    hide UsedSet, OwnedPages, BlocksPages, TreeOk, GraphOn, Orderly, GoodVmas, GoodBlocks, HeapList;
    var used, o, l := UsedSet(s.usage), OwnedPages(s.mmap), BlocksPages(s.leaked + s.lost);
    LedgerTables(used, base, s.tabs, s.mmap, s.leaked + s.lost);
    forall f ensures f in used <==> f in base || f in Mine(s) {
      assert multiset(used)[f] == (multiset(base) + multiset(s.tabs.Keys) + o + l)[f];
      assert f in used <==> multiset(used)[f] > 0;
      assert f in base <==> multiset(base)[f] > 0;
      assert f in s.tabs.Keys <==> multiset(s.tabs.Keys)[f] > 0;
    }
  }

  /** A process does not notice what happens to pages that are not its own. */
  lemma Survives(s: Space, base: set<nat>, ram: Ram, usage: seq<bool>, kept: set<nat>)
    requires Intact(s, base) && Keeps(s.ram, ram, kept) && Mine(s) <= kept && Mine(s) <= UsedSet(usage)
    ensures Intact(Aside(s, ram, usage), UsedSet(usage) - Mine(s))
    ensures forall world :: Shape(s.ram, s.pgDir, world, s.mmap) ==> Shape(ram, s.pgDir, world, s.mmap)
  {
    hide LeafEntry, TreeOk, GoodVmas, GoodBlocks, Layout, BelowBrk, HeapInside, HeapList, MappedBlocks, UsedSet,
         OwnedPages, BlocksPages, Keeps, Backed, Forkable;
    MineApart(s, base);
    SameTree(s.ram, ram, s.pgDir, s.tabs, kept);
    SameTables(s.ram, ram, s.pgDir, s.tabs, kept);
    LedgerAside(UsedSet(s.usage), UsedSet(usage), base, s.tabs, s.mmap, s.leaked + s.lost);
    SameGraph(s.ram, ram, s.pgDir, MappedBlocks(s.mmap, s.startBrk, s.stale, s.lost), s.startBrk, MAX_BRK_ADDR);
    forall world | Shape(s.ram, s.pgDir, world, s.mmap) ensures Shape(ram, s.pgDir, world, s.mmap) {
      forall j | 0 <= j < |s.mmap| ensures Backed(ram, s.pgDir, world, s.mmap[j]) {
        SameBacked(s.ram, ram, s.pgDir, world, kept, s.mmap[j]);
      }
    }
  }

  lemma SameGraph(ram: Ram, ram': Ram, root: nat, bs: seq<PagesBlock>, lo: nat, hi: nat)
    requires GraphOn(ram, root, bs, lo, hi) && forall w: nat :: LeafEntry(ram', root, w) == LeafEntry(ram, root, w)
    ensures GraphOn(ram', root, bs, lo, hi)
  {
    hide LeafEntry, Next;
  }

  lemma SameBacked(ram: Ram, ram': Ram, root: nat, world: set<nat>, kept: set<nat>, v: Vma)
    requires Backed(ram, root, world, v) && Keeps(ram, ram', kept)
    requires forall w: nat :: LeafEntry(ram', root, w) == LeafEntry(ram, root, w)
    ensures Backed(ram', root, world, v)
  {
    hide LeafEntry, Entry, PageAt, BlocksPages, InPool;
    if Loaded(v) {
      StillMapped(ram, ram', root, v);
      forall k: nat | k < VmaPages(v) ensures FrameHeld(ram', world, v, Va(LoadPage(v, k))) {
        assert FrameHeld(ram, world, v, Va(LoadPage(v, k)));
      }
    }
  }

  lemma LedgerAside(u0: set<nat>, u1: set<nat>, base: set<nat>, tabs: map<nat, Node>, vs: seq<Vma>, lost: seq<PagesBlock>)
    requires Ledger(u0, base, tabs, vs, lost) && u0 - base <= u1
    ensures Ledger(u1, u1 - (u0 - base), tabs, vs, lost)
  {
    hide OwnedPages, BlocksPages;
    LedgerTables(u0, base, tabs, vs, lost);
    var mine := u0 - base;
    var own := multiset(tabs.Keys) + OwnedPages(vs) + BlocksPages(lost);
    forall f ensures own[f] == multiset(mine)[f] {
      assert multiset(u0)[f] == (multiset(base) + multiset(tabs.Keys) + OwnedPages(vs) + BlocksPages(lost))[f];
    }
    assert own == multiset(mine);
    assert multiset(u1) == multiset(u1 - mine) + multiset(mine);
    assert multiset(u1 - mine) + own == multiset(u1 - mine) + multiset(tabs.Keys) + OwnedPages(vs) + BlocksPages(lost);
  }

  /**
   * Every byte of every loaded area, shared or private, reads in the child as it read in the parent when the
   * fork began.
   */
  lemma ChildSees(ram0: Ram, ram: Ram, root: nat, pgDir: nat, used0: set<nat>, used: set<nat>, vs: seq<Vma>, cs: seq<Vma>, world: set<nat>,
                  j: nat, a: nat)
    requires Shape(ram0, root, world, vs) && world <= used0 && Keeps(ram0, ram, used0)
    requires Clones(ram0, ram, root, used0, used, vs, cs, |vs|) && AllLoadable(cs) && MappedFirst(ram, pgDir, cs, |cs|)
    requires forall f :: f in ram0 ==> |ram0[f]| == 512
    requires j < |vs| && Loaded(vs[j]) && vs[j].start <= a < vs[j].end
    ensures var f, f0 := Next(LeafEntry(ram, pgDir, a)), Next(LeafEntry(ram0, root, a));
            && f in ram && f0 in ram0 && |ram[f]| == 512
            && ram[f][a % 4096 / 8] / Pow256(a % 8) % 256 == ram0[f0][a % 4096 / 8] / Pow256(a % 8) % 256
  {
    hide LeafEntry, Next, Clones, MappedFirst, AllLoadable, Forkable, MappedTo, InPool, BlocksPages, Pow256;
    var v, k := vs[j], (a - vs[j].start) / PAGE_SIZE;
    assert Backed(ram0, root, world, v);
    ChildReads(ram0, ram, root, pgDir, used0, used, vs, cs, j, a);
    if v.shared {
      PageInArea(v.start, v.end, a);
      assert FrameHeld(ram0, world, v, Va(LoadPage(v, k)));
    }
  }

  // ---------------------------------------------------------------------------------------
  // The inherited heap

  /**
   * The copies fork makes of heap pages are recorded but not mapped, and never will be: whatever the child does,
   * no page of its heap translates to one of them.
   */
  lemma InheritedUnread(m: PageMemory, t: Task, base: set<nat>, p: nat, b: PagesBlock)
    requires SpaceOk(m, t, base) && b in t.stale
    requires p % PAGE_SIZE == 0 && t.startBrk <= p < MAX_BRK_ADDR && LeafEntry(m.ram, t.pgDir, p) != 0
    ensures Next(LeafEntry(m.ram, t.pgDir, p)) != b.linearAddr
  {
    hide LeafEntry, Next, TreeOk, LoadedMapped, BelowBrk, HeapInside, OwnedPages, BlocksPages, Layout, MappedBlocks,
         HeapList, UsedSet, GoodVmas;
    var bs := MappedBlocks(t.mmap, t.startBrk, t.stale, t.lost);
    assert HasBlock(bs, p);
    var c :| c in bs && c.userVirtAddr == p;
    assert InRange(c, t.startBrk, MAX_BRK_ADDR);
    FramesApart(m.Used(), base, t.tabs, t.mmap, t.startBrk, t.brk, t.stale, t.leaked, t.lost, b, c);
  }

  /** Right after the fork no page of the inherited heap is mapped at all. */
  lemma InheritedUnmapped(m: PageMemory, t: Task, base: set<nat>, b: PagesBlock)
    requires SpaceOk(m, t, base) && t.stale == HeapList(t.mmap, t.startBrk) && t.lost == [] && b in t.stale
    ensures LeafEntry(m.ram, t.pgDir, b.userVirtAddr) == 0
  {
    var i, p := FindVma(t.mmap, t.startBrk, 0), PageAddr(b.userVirtAddr);
    assert InRange(b, t.startBrk, MAX_BRK_ADDR);
    assert MappedBlocks(t.mmap, t.startBrk, t.stale, t.lost) == [];
    PageOfAddr(b.userVirtAddr);
    InHeap(t.startBrk, b.userVirtAddr);
    hide FindVma, LeafEntry, Next, TreeOk, Ledger, LoadedMapped, BelowBrk, HeapInside, Layout, MappedBlocks, HeapList,
         UsedSet, PageAddr, SamePage;
    SamePageEntry(m.ram, t.pgDir, b.userVirtAddr, p);
    assert !HasBlock([], p);
  }

  lemma InHeap(startBrk: nat, a: nat)
    requires startBrk % PAGE_SIZE == 0 && startBrk <= a < MAX_BRK_ADDR
    ensures startBrk <= PageAddr(a) < MAX_BRK_ADDR
  {
  }

  /** Every page in use is counted once, so a stale block and a mapped one have different frames. */
  lemma FramesApart(used: set<nat>, base: set<nat>, tabs: map<nat, Node>, vs: seq<Vma>, startBrk: nat, brk: nat,
                    stale: seq<PagesBlock>, leaked: seq<PagesBlock>, lost: seq<PagesBlock>, b: PagesBlock, c: PagesBlock)
    requires Ledger(used, base, tabs, vs, leaked + lost) && Layout(vs, startBrk, brk) && stale <= HeapList(vs, startBrk)
    requires b in stale && c in MappedBlocks(vs, startBrk, stale, lost)
    ensures b.linearAddr != c.linearAddr
  {
    var i, bs := FindVma(vs, startBrk, 0), HeapList(vs, startBrk);
    HeapDemand(vs, startBrk, brk);
    var xs, f := bs[|stale|..], b.linearAddr;
    hide FindVma, Layout, OwnedPages, BlocksPages, UsedSet;
    assert c in xs || c in lost;
    OwnedUpdate(vs, i, vs[i].(blocks := []));
    NoBlocks();
    PartOf(OwnedPages(vs), OwnedPages(vs[i := vs[i].(blocks := [])]), BlocksPages(bs));
    assert bs == stale + xs;
    BlocksAppend(stale, xs);
    BlocksAppend(leaked, lost);
    BlockStarts(stale, b);
    if c in xs { BlockStarts(xs, c); } else { BlockStarts(lost, c); }
    CountedOnce(used, base, multiset(tabs.Keys), OwnedPages(vs), BlocksPages(leaked), BlocksPages(lost),
      BlocksPages(stale), BlocksPages(xs), b.linearAddr, c.linearAddr);
  }

  lemma CountedOnce(used: set<nat>, base: set<nat>, ts: multiset<nat>, o: multiset<nat>, k: multiset<nat>,
          l: multiset<nat>, s: multiset<nat>, x: multiset<nat>, f: nat, g: nat)
    requires multiset(used) == multiset(base) + ts + o + (k + l) && s + x <= o && f in s && (g in x || g in l)
    ensures f != g
  {
    assert multiset(used)[f] == (multiset(base) + ts + o + (k + l))[f];
    assert (s + x)[f] <= o[f];
    assert multiset(used)[f] <= 1;
  }

  // ---------------------------------------------------------------------------------------
  // The life of a child

  /** fork and the child's exit, with nothing between them, cancel out; this needs nothing of the parent but that it can be read. */
  method ForkThenExit(m: PageMemory, parent: Task, slotOk: bool, kmalloc: Kmalloc) returns (hung: bool)
    requires m.Valid() && TreeOk(m.ram, parent.pgDir, parent.tabs) && parent.tabs.Keys <= m.Used()
    requires Forkable(parent.mmap) && forall j :: 0 <= j < |parent.mmap| ==> Readable(m.ram, parent.pgDir, m.Used(), parent.mmap[j])
    modifies m`ram, m.usage
    ensures m.Valid()
    ensures !hung ==> m.usage[..] == old(m.usage[..]) && Keeps(old(m.ram), m.ram, old(m.Used()))
    ensures hung ==> PoolExhausted(m.usage[..]) && slotOk && Granted(kmalloc, 0, 1 + CallsForAll(parent.mmap, |parent.mmap|))
  {
    hide LeafEntry, TreeOk, Readable, Clones, ForkLedger, GoodVmas, Keeps, MappedFirst, Forkable, PoolExhausted,
         HeapList, AllLoadable, OutOfPages;
    ghost var used0, u0 := m.Used(), m.usage[..];
    var r, child;
    ghost var full, calls;
    r, child, full, calls := SysFork(m, parent, slotOk, kmalloc);
    if r == Forked {
      Rollback(m, child.mmap, child.pgDir, child.tabs, used0);
      UsedInjective(m.usage[..], u0);
    }
    hung := r.Hung?;
  }

  /** No shrink among the first `n` events covers a page of the heap the parent had at the fork. */
  ghost predicate HeapKept(events: seq<Event>, startBrk: nat, brk: nat, n: nat, vs: seq<Vma>)
    requires n <= |events|
  {
    forall b :: b in HeapList(vs, startBrk) ==> Untouched(events, startBrk, brk, n, b)
  }

  /** Every page that was mapped without a record was later covered by a shrink. */
  predicate NoneLeft(events: seq<Event>, pages: seq<nat>, startBrk: nat, brk: nat)
    requires |pages| <= |events|
  {
    forall k: nat :: k < |pages| ==> !LeftBehind(events, pages, startBrk, brk, |pages|, k)
  }

  /**
   * sys_fork, then any faults and break changes of the child, then its exit. The usage map is that of before the
   * fork if and only if no page the child mapped without a record was left behind, and no shrink of the child
   * covered a page of the heap it inherited: fork records copies of those pages without mapping them, so a
   * shrink drops the records and frees nothing. The parent does not notice.
   */
  method ChildLife(m: PageMemory, parent: Task, slotOk: bool, kmalloc: Kmalloc, events: seq<Event>, ghost base: set<nat>,
          ghost world: set<nat>)
    returns (r: ForkOutcome, outcome: LifeOutcome, ghost run: seq<Space>, ghost pages: seq<nat>)
    requires SpaceOk(m, parent, base) && Shape(m.ram, parent.pgDir, world, parent.mmap) && world <= base
    modifies m`ram, m.usage
    ensures m.Valid()
    ensures r.Hung? ==> PoolExhausted(m.usage[..])
    ensures r == Failed ==> m.usage[..] == old(m.usage[..]) && MayFail(slotOk, kmalloc, old(m.Used()), parent.mmap)
    ensures r == Forked ==> IsRun(run, events, pages) && outcome != NotStarted
    ensures r == Forked ==>
              && run[0].startBrk == parent.startBrk && run[0].brk == parent.brk && run[0].stale == HeapList(run[0].mmap, parent.startBrk)
              && Clones(old(m.ram), run[0].ram, parent.pgDir, old(m.Used()), UsedSet(run[0].usage), parent.mmap, run[0].mmap, |parent.mmap|)
    ensures r == Forked && outcome.Hung? ==> PoolExhausted(m.usage[..]) && |pages| < |events| && events[|pages|].Fault?
    ensures r == Forked && outcome == OutOfDomain ==> |pages| < |events| && !Over(run, events, pages) && !InDomain(run[|pages|], events[|pages|])
    ensures r == Forked && outcome == Exited ==> Over(run, events, pages)
    ensures r == Forked && outcome == Exited ==> m.Used() == old(m.Used()) + Leftovers(events, pages, run[0]) && old(m.Used()) !! Leftovers(events, pages, run[0])
    ensures r == Forked && outcome == Exited ==>
              (m.usage[..] == old(m.usage[..]) <==>
                 NoneLeft(events, pages, parent.startBrk, parent.brk) && HeapKept(events, parent.startBrk, parent.brk, |pages|, parent.mmap))
    ensures r == Failed || (r == Forked && outcome == Exited) ==>
              && Keeps(old(m.ram), m.ram, old(m.Used()))
              && SpaceOk(m, parent, m.Used() - (old(m.Used()) - base)) && Shape(m.ram, parent.pgDir, world, parent.mmap)
  {
    hide SpaceOk, LeafEntry, TreeOk, Readable, Clones, ForkLedger, GoodVmas, Keeps, MappedFirst, Forkable,
         PoolExhausted, HeapList, AllLoadable, OutOfPages, Shape, Orderly, Layout, BelowBrk, HeapInside, Leftovers,
         Clean, UsedSet, Over, InDomain, StepAt, Reversed, NoneLeft, HeapKept, OnePageEach, Intact, Granted;
    ghost var s, used0, u0 := View(m, parent), m.Used(), m.usage[..];
    run, pages, outcome := [], [], NotStarted;
    MayFork(m, parent, base, world);
    IntactIff(m, parent, base);
    InOrder(m, parent, base);
    var child;
    ghost var full, calls;
    r, child, full, calls := SysFork(m, parent, slotOk, kmalloc);
    if r == Forked {
      OrderlyParts(s);
      ClonesReversed(s.ram, m.ram, s.pgDir, used0, m.Used(), s.mmap, child.mmap);
      ChildInOrder(m, child, s.ram, s.pgDir, used0, s.mmap, s.lost);
      ghost var first := View(m, child);
      outcome, run, pages := RunAndExit(m, child, events, used0);
      if outcome == Exited {
        KeepsTrans(s.ram, first.ram, m.ram, used0, used0);
        if m.Used() == used0 { UsedInjective(m.usage[..], u0); }
        ChildHeapList(s.mmap, first.mmap, s.startBrk, s.brk, s.lost);
        CleanChild(events, pages, first, s.mmap);
      }
    }
    if r == Failed || (r == Forked && outcome == Exited) {
      MineApart(s, base);
      Survives(s, base, m.ram, m.usage[..], used0);
      assert View(m, parent) == Aside(s, m.ram, m.usage[..]);
      IntactIff(m, parent, m.Used() - (used0 - base));
    }
  }

  lemma OrderlyParts(s: Space)
    requires Orderly(s)
    ensures Layout(s.mmap, s.startBrk, s.brk) && HeapInside(s.mmap, s.startBrk) && BelowBrk(HeapList(s.mmap, s.startBrk) + s.lost, s.startBrk, s.brk)
  {
  }

  /** For a new child the leftovers are its own unrecorded pages, and the inherited pages a shrink covered. */
  lemma CleanChild(events: seq<Event>, pages: seq<nat>, first: Space, vs: seq<Vma>)
    requires |pages| <= |events| && first.lost == [] && first.leaked == []
    requires var bs := HeapList(vs, first.startBrk);
             |first.stale| == |bs| && forall i :: 0 <= i < |bs| ==> first.stale[i].userVirtAddr == bs[i].userVirtAddr
    ensures Clean(events, pages, first) <==>
              NoneLeft(events, pages, first.startBrk, first.brk) && HeapKept(events, first.startBrk, first.brk, |pages|, vs)
  {
    hide CoveredIn, LeftBehind, HeapList;
    var bs := HeapList(vs, first.startBrk);
    if Clean(events, pages, first) {
      forall b | b in bs ensures Untouched(events, first.startBrk, first.brk, |pages|, b) {
        var i :| 0 <= i < |bs| && bs[i] == b;
        assert first.stale[i] in first.stale;
      }
    }
    if HeapKept(events, first.startBrk, first.brk, |pages|, vs) {
      forall b | b in first.stale ensures Untouched(events, first.startBrk, first.brk, |pages|, b) {
        var i :| 0 <= i < |first.stale| && first.stale[i] == b;
        assert bs[i] in bs;
      }
    }
  }
}
