/** sys_brk (kernel/isr.c): growing, shrinking and re-creating the heap area. */
module Brk {
  import opened Descriptor
  import opened Machine
  import opened PageTable
  import opened VmBlocks
  import opened AddressSpace
  import opened DemandPaging

  /** The area list after deleting the blocks of [lo, hi) from area `i`. */
  function Trimmed(vs: seq<Vma>, i: nat, lo: nat, hi: nat): seq<Vma>
    requires i < |vs|
  {
    vs[i := vs[i].(blocks := Outside(vs[i].blocks, lo, hi))]
  }

  /** The deletion loop of sys_brk over one block list. */
  method DeleteBlocks(bs: seq<PagesBlock>, lo: nat, hi: nat) returns (r: seq<PagesBlock>)
    ensures r == Outside(bs, lo, hi)
  {
    r := [];
    OutsideNone(lo, hi);
    hide Outside;
    for k := 0 to |bs|
      invariant r == Outside(bs[..k], lo, hi)
    {
      assert bs[..k + 1] == bs[..k] + [bs[k]];
      OutsideAppend(bs[..k], [bs[k]], lo, hi);
      OutsideOne(bs[k], lo, hi);
      if !(lo <= bs[k].userVirtAddr && bs[k].userVirtAddr < hi) {
        r := r + [bs[k]];
      }
    }
    assert bs[..|bs|] == bs;
  }

  lemma OutsideNone(lo: nat, hi: nat)
    ensures Outside([], lo, hi) == []
  {
  }

  lemma OutsideOne(b: PagesBlock, lo: nat, hi: nat)
    ensures Outside([b], lo, hi) == if InRange(b, lo, hi) then [] else [b]
  {
    assert [b][1..] == [];
  }

  lemma {:induction false} OutsideDistinct(bs: seq<PagesBlock>, a: nat, b: nat, lo: nat, hi: nat)
    requires DistinctIn(bs, lo, hi)
    ensures DistinctIn(Outside(bs, a, b), lo, hi)
  {
    if bs != [] {
      DistinctTail(bs, lo, hi);
      OutsideDistinct(bs[1..], a, b, lo, hi);
      if !InRange(bs[0], a, b) {
        assert Outside(bs, a, b) == [bs[0]] + Outside(bs[1..], a, b);
        hide DistinctIn, Outside;
        DistinctCons(bs[0], Outside(bs[1..], a, b), lo, hi);
      }
    }
  }

  lemma DistinctTail(bs: seq<PagesBlock>, lo: nat, hi: nat)
    requires DistinctIn(bs, lo, hi) && bs != []
    ensures DistinctIn(bs[1..], lo, hi)
    ensures forall c :: c in bs[1..] && InRange(bs[0], lo, hi) && InRange(c, lo, hi) ==> c.userVirtAddr != bs[0].userVirtAddr
  {
    var ts := bs[1..];
    assert forall i :: 0 <= i < |ts| ==> ts[i] == bs[i + 1];
    forall c | c in ts && InRange(bs[0], lo, hi) && InRange(c, lo, hi) ensures c.userVirtAddr != bs[0].userVirtAddr {
      var k :| 0 <= k < |ts| && ts[k] == c;
      assert bs[k + 1] == c;
    }
  }

  lemma DistinctCons(b: PagesBlock, bs: seq<PagesBlock>, lo: nat, hi: nat)
    requires DistinctIn(bs, lo, hi)
    requires forall c :: c in bs && InRange(b, lo, hi) && InRange(c, lo, hi) ==> c.userVirtAddr != b.userVirtAddr
    ensures DistinctIn([b] + bs, lo, hi)
  {
    var all := [b] + bs;
    forall i, j | 0 <= i < j < |all| && InRange(all[i], lo, hi) && InRange(all[j], lo, hi)
      ensures all[i].userVirtAddr != all[j].userVirtAddr
    {
      assert all[j] == bs[j - 1] && (i > 0 ==> all[i] == bs[i - 1]);
    }
  }

  /** Clearing [a, b) and dropping its blocks keeps blocks and page table in step. */
  lemma GraphTrim(ram: Ram, ram': Ram, root: nat, bs: seq<PagesBlock>, lo: nat, hi: nat, a: nat, b: nat)
    requires GraphOn(ram, root, bs, lo, hi) && hi <= VA_LIMIT
    requires ClearsRange(ram, ram', root, a, b)
    ensures GraphOn(ram', root, Outside(bs, a, b), lo, hi)
  {
    hide LeafEntry, Next;
    OutsideDistinct(bs, a, b, lo, hi);
    var rs := Outside(bs, a, b);
    hide Outside;
    forall p: nat | p % PAGE_SIZE == 0 && lo <= p < hi && LeafEntry(ram', root, p) != 0 ensures HasBlock(rs, p) {
      assert HasBlock(bs, p);
      var c :| c in bs && c.userVirtAddr == p;
      assert c in rs;
    }
    forall c | c in rs && InRange(c, lo, hi)
      ensures c.userVirtAddr % PAGE_SIZE == 0 && c.order == 0 && LeafEntry(ram', root, c.userVirtAddr) != 0
           && Next(LeafEntry(ram', root, c.userVirtAddr)) == c.linearAddr
    {
    }
  }

  lemma GraphPart(ram: Ram, root: nat, bs: seq<PagesBlock>, lo: nat, hi: nat, a: nat, b: nat)
    requires GraphOn(ram, root, bs, lo, hi) && lo <= a && b <= hi
    ensures GraphOn(ram, root, bs, a, b)
  {
  }

  lemma BelowTrim(bs: seq<PagesBlock>, startBrk: nat, oldBrk: nat, brk: nat)
    requires BelowBrk(bs, startBrk, oldBrk)
    ensures BelowBrk(Outside(bs, UpperPageAddr(brk), UpperPageAddr(oldBrk)), startBrk, brk)
  {
    var rs := Outside(bs, UpperPageAddr(brk), UpperPageAddr(oldBrk));
    hide Outside, UpperPageAddr;
    forall c | c in rs && InRange(c, startBrk, MAX_BRK_ADDR) ensures c.userVirtAddr < UpperPageAddr(brk) {
    }
  }

  lemma BelowGrow(bs: seq<PagesBlock>, startBrk: nat, oldBrk: nat, brk: nat)
    requires BelowBrk(bs, startBrk, oldBrk) && UpperPageAddr(oldBrk) <= UpperPageAddr(brk)
    ensures BelowBrk(bs, startBrk, brk)
  {
  }

  /** The account after the frames of [a, b) that were mapped were freed, and all blocks of the range dropped. */
  lemma LedgerTrim(u0: set<nat>, u1: set<nat>, base: set<nat>, tabs: map<nat, Node>, vs: seq<Vma>, leaked: seq<PagesBlock>, lost: seq<PagesBlock>,
                   i: nat, stale: seq<PagesBlock>, a: nat, b: nat)
    requires Ledger(u0, base, tabs, vs, leaked + lost) && i < |vs| && !vs[i].shared && stale <= vs[i].blocks
    requires multiset(u1) == multiset(u0) - BlocksPages(Inside(vs[i].blocks[|stale|..] + lost, a, b))
    ensures Ledger(u1, base, tabs, Trimmed(vs, i, a, b), leaked + Inside(stale, a, b) + Outside(lost, a, b))
  {
    hide OwnedPages, BlocksPages, Inside, Outside;
    var bs, xs := vs[i].blocks, vs[i].blocks[|stale|..];
    assert bs == stale + xs;
    OwnedUpdate(vs, i, vs[i].(blocks := Outside(bs, a, b)));
    Partition(bs, a, b);
    Partition(lost, a, b);
    InsideAppend(stale, xs, a, b);
    InsideAppend(xs, lost, a, b);
    BlocksAppend(Inside(stale, a, b), Inside(xs, a, b));
    BlocksAppend(Inside(xs, a, b), Inside(lost, a, b));
    BlocksAppend(leaked, lost);
    BlocksAppend(leaked, Inside(stale, a, b));
    BlocksAppend(leaked + Inside(stale, a, b), Outside(lost, a, b));
    Drop(multiset(u0), multiset(u1), multiset(base) + multiset(tabs.Keys), OwnedPages(vs), OwnedPages(Trimmed(vs, i, a, b)),
         BlocksPages(leaked), BlocksPages(lost), BlocksPages(Inside(stale, a, b)), BlocksPages(Inside(xs, a, b)), BlocksPages(Outside(bs, a, b)),
         BlocksPages(Inside(lost, a, b)), BlocksPages(Outside(lost, a, b)));
  }

  lemma Drop(u0: multiset<nat>, u1: multiset<nat>, r: multiset<nat>, o: multiset<nat>, o': multiset<nat>, k: multiset<nat>, l: multiset<nat>,
             si: multiset<nat>, xi: multiset<nat>, bo: multiset<nat>, li: multiset<nat>, lo: multiset<nat>)
    requires u0 == r + o + (k + l) && u1 == u0 - (xi + li)
    requires o' + (si + xi + bo) == o + bo && l == li + lo
    ensures u1 == r + o' + (k + si + lo)
  {
    forall f ensures u1[f] == (r + o' + (k + si + lo))[f] {
      assert (o' + (si + xi + bo))[f] == (o + bo)[f];
      assert u0[f] == (r + o + (k + l))[f];
    }
  }

  lemma HeapPagesUsed(used: set<nat>, base: set<nat>, tabs: map<nat, Node>, vs: seq<Vma>, leaked: seq<PagesBlock>,
          lost: seq<PagesBlock>, i: nat, stale: seq<PagesBlock>)
    requires Ledger(used, base, tabs, vs, leaked + lost) && i < |vs| && !vs[i].shared && stale <= vs[i].blocks
    ensures BlocksPages(vs[i].blocks[|stale|..] + lost) <= multiset(used)
  {
    hide OwnedPages, BlocksPages;
    var bs, xs := vs[i].blocks, vs[i].blocks[|stale|..];
    assert bs == stale + xs;
    BlocksAppend(stale, xs);
    BlocksAppend(xs, lost);
    BlocksAppend(leaked, lost);
    OwnedUpdate(vs, i, vs[i].(blocks := []));
    assert BlocksPages([]) == multiset{} by { NoBlocks(); }
    PartOf(OwnedPages(vs), OwnedPages(vs[i := vs[i].(blocks := [])]), BlocksPages(bs));
  }

  lemma PartOf(o: multiset<nat>, o': multiset<nat>, x: multiset<nat>)
    requires o' + x == o + multiset{}
    ensures x <= o
  {
    forall f ensures x[f] <= o[f] {
      assert (o' + x)[f] == (o + multiset{})[f];
    }
  }

  lemma {:induction false} OutsideGood(bs: seq<PagesBlock>, lo: nat, hi: nat)
    requires GoodBlocks(bs)
    ensures GoodBlocks(Outside(bs, lo, hi))
  {
    var rs := Outside(bs, lo, hi);
    forall k | 0 <= k < |rs| ensures GoodBlock(rs[k]) {
      assert rs[k] in bs;
      var j :| 0 <= j < |bs| && bs[j] == rs[k];
    }
  }

  lemma TrimmedGood(vs: seq<Vma>, i: nat, lo: nat, hi: nat)
    requires GoodVmas(vs) && i < |vs|
    ensures GoodVmas(Trimmed(vs, i, lo, hi))
  {
    assert GoodBlocks(vs[i].blocks);
    OutsideGood(vs[i].blocks, lo, hi);
    var ws := Trimmed(vs, i, lo, hi);
    forall k | 0 <= k < |ws| ensures GoodBlocks(ws[k].blocks) {
      assert GoodBlocks(vs[k].blocks);
    }
  }

  /** Loaded areas are outside the heap region, so clearing part of the region leaves them mapped. */
  lemma LoadedTrim(ram: Ram, ram': Ram, root: nat, vs: seq<Vma>, ws: seq<Vma>, startBrk: nat, brk: nat, a: nat, b: nat)
    requires LoadedMapped(ram, root, vs) && Layout(vs, startBrk, brk) && |ws| == |vs|
    requires forall k :: 0 <= k < |vs| ==> ws[k].start == vs[k].start && ws[k].end == vs[k].end && ws[k].lma == vs[k].lma
    requires ClearsRange(ram, ram', root, a, b) && startBrk <= a && b <= MAX_BRK_ADDR
    ensures LoadedMapped(ram', root, ws)
  {
    hide LeafEntry, FindVma;
    forall k, x: nat | 0 <= k < |ws| && ws[k].lma != NO_LMA && Covers(ws[k], x) ensures LeafEntry(ram', root, x) != 0 {
      assert Covers(vs[k], x);
      assert Apart(vs[k], startBrk);
    }
  }

  // ---------------------------------------------------------------------------------------
  // The area list at the end of the call

  /** The label `out` of sys_brk: the heap area's end follows the break, or a new area is put in front. */
  function Settled(vs: seq<Vma>, startBrk: nat, brk: nat, kmallocOk: bool): seq<Vma> {
    var i := FindVma(vs, startBrk, 0);
    if i < |vs| then vs[i := vs[i].(end := brk)]
    else if kmallocOk then [Vma(startBrk, brk, false, true, NO_LMA, [])] + vs
    else vs
  }

  /** The break may have moved from `oldBrk` to `brk`; if it fell to startBrk the heap area has no blocks left. */
  lemma SettledLayout(vs: seq<Vma>, startBrk: nat, oldBrk: nat, brk: nat, kmallocOk: bool)
    requires Layout(vs, startBrk, oldBrk) && startBrk <= brk <= MAX_BRK_ADDR
    requires var i := FindVma(vs, startBrk, 0); i < |vs| && brk == startBrk ==> vs[i].blocks == []
    ensures Layout(Settled(vs, startBrk, brk, kmallocOk), startBrk, brk)
  {
    var i := FindVma(vs, startBrk, 0);
    var ws := Settled(vs, startBrk, brk, kmallocOk);
    SettledFind(vs, startBrk, oldBrk, brk, kmallocOk);
    hide FindVma;
    if i == |vs| && kmallocOk {
      assert forall k :: 1 <= k < |ws| ==> ws[k] == vs[k - 1];
    }
  }

  lemma SettledFind(vs: seq<Vma>, startBrk: nat, oldBrk: nat, brk: nat, kmallocOk: bool)
    requires Layout(vs, startBrk, oldBrk) && startBrk <= brk <= MAX_BRK_ADDR
    ensures var i := FindVma(vs, startBrk, 0);
            var ws := Settled(vs, startBrk, brk, kmallocOk);
            && (brk == startBrk ==> FindVma(ws, startBrk, 0) == |ws|)
            && (brk > startBrk && i < |vs| ==> FindVma(ws, startBrk, 0) == i)
            && (brk > startBrk && i == |vs| ==> FindVma(ws, startBrk, 0) == if kmallocOk then 0 else |ws|)
  {
    var i := FindVma(vs, startBrk, 0);
    var ws := Settled(vs, startBrk, brk, kmallocOk);
    var j := FindVma(ws, startBrk, 0);
    if i < |vs| {
      assert forall k :: 0 <= k < |vs| && k != i ==> !Covers(ws[k], startBrk);
      assert Covers(ws[i], startBrk) <==> brk > startBrk;
    } else if kmallocOk {
      assert forall k :: 1 <= k < |ws| ==> ws[k] == vs[k - 1] && !Covers(ws[k], startBrk);
      assert Covers(ws[0], startBrk) <==> brk > startBrk;
    }
  }

  lemma SettledBlocks(vs: seq<Vma>, startBrk: nat, oldBrk: nat, brk: nat, kmallocOk: bool)
    requires Layout(vs, startBrk, oldBrk) && startBrk <= brk <= MAX_BRK_ADDR
    requires var i := FindVma(vs, startBrk, 0); i < |vs| && brk == startBrk ==> vs[i].blocks == []
    ensures HeapList(Settled(vs, startBrk, brk, kmallocOk), startBrk) == HeapList(vs, startBrk)
    ensures OwnedPages(Settled(vs, startBrk, brk, kmallocOk)) == OwnedPages(vs)
    ensures HeapInside(vs, startBrk) ==> HeapInside(Settled(vs, startBrk, brk, kmallocOk), startBrk)
    ensures GoodVmas(vs) ==> GoodVmas(Settled(vs, startBrk, brk, kmallocOk))
  {
    SettledFind(vs, startBrk, oldBrk, brk, kmallocOk);
    SettledAccount(vs, startBrk, brk, kmallocOk);
    hide FindVma, OwnedPages, GoodVmas, Layout;
  }

  lemma SettledAccount(vs: seq<Vma>, startBrk: nat, brk: nat, kmallocOk: bool)
    requires var i := FindVma(vs, startBrk, 0); i < |vs| ==> !vs[i].shared
    ensures OwnedPages(Settled(vs, startBrk, brk, kmallocOk)) == OwnedPages(vs)
    ensures GoodVmas(vs) ==> GoodVmas(Settled(vs, startBrk, brk, kmallocOk))
  {
    hide FindVma, OwnedPages, BlocksPages, GoodBlock;
    var i := FindVma(vs, startBrk, 0);
    var ws := Settled(vs, startBrk, brk, kmallocOk);
    if i < |vs| {
      OwnedSame(vs, ws);
    } else if kmallocOk {
      OwnedCons(ws[0], vs);
      NoBlocks();
      if GoodVmas(vs) {
        forall k | 0 <= k < |ws| ensures GoodBlocks(ws[k].blocks) {
          if k > 0 { assert GoodBlocks(vs[k - 1].blocks); }
        }
      }
    }
  }

  lemma SettledLoaded(ram: Ram, root: nat, vs: seq<Vma>, startBrk: nat, oldBrk: nat, brk: nat, kmallocOk: bool)
    requires Layout(vs, startBrk, oldBrk) && LoadedMapped(ram, root, vs)
    ensures LoadedMapped(ram, root, Settled(vs, startBrk, brk, kmallocOk))
  {
    hide LeafEntry, FindVma;
    var i := FindVma(vs, startBrk, 0);
    var ws := Settled(vs, startBrk, brk, kmallocOk);
    forall k, x: nat | 0 <= k < |ws| && ws[k].lma != NO_LMA && Covers(ws[k], x) ensures LeafEntry(ram, root, x) != 0 {
      if i < |vs| {
        assert Covers(vs[k], x);
      } else if kmallocOk {
        assert ws[k] == vs[k - 1];
        assert Covers(vs[k - 1], x);
      } else {
        assert Covers(vs[k], x);
      }
    }
  }

  lemma TrimmedLayout(vs: seq<Vma>, startBrk: nat, brk: nat, lo: nat, hi: nat)
    requires Layout(vs, startBrk, brk) && FindVma(vs, startBrk, 0) < |vs|
    ensures var i := FindVma(vs, startBrk, 0);
            var ws := Trimmed(vs, i, lo, hi);
            && Layout(ws, startBrk, brk) && FindVma(ws, startBrk, 0) == i
            && (HeapInside(vs, startBrk) ==> HeapInside(ws, startBrk))
  {
    var i := FindVma(vs, startBrk, 0);
    FindVmaSame(vs, Trimmed(vs, i, lo, hi), startBrk, 0);
    hide FindVma;
  }

  /** If the break fell to startBrk, every block of the heap area was in the cleared range. */
  lemma AllTrimmed(vs: seq<Vma>, startBrk: nat, oldBrk: nat, lost: seq<PagesBlock>)
    requires HeapInside(vs, startBrk) && BelowBrk(HeapList(vs, startBrk) + lost, startBrk, oldBrk)
    requires FindVma(vs, startBrk, 0) < |vs|
    ensures Outside(vs[FindVma(vs, startBrk, 0)].blocks, startBrk, UpperPageAddr(oldBrk)) == []
  {
    hide FindVma, UpperPageAddr;
    var bs := vs[FindVma(vs, startBrk, 0)].blocks;
    var rs := Outside(bs, startBrk, UpperPageAddr(oldBrk));
    var b := if rs != [] then rs[0] else PagesBlock(0, 0, 0);
    assert b in rs ==> b in HeapList(vs, startBrk) + lost;
  }

  // ---------------------------------------------------------------------------------------
  // The call

  /** The break moves only for a non-zero address in [startBrk, MAX_BRK_ADDR]. */
  predicate Accepted(addr: nat, startBrk: nat) { addr != 0 && startBrk <= addr <= MAX_BRK_ADDR }

  /** sys_brk's domain: before a shrink the heap area exists and both upper table levels are there for every page to unmap. */
  predicate MayCall(ram: Ram, root: nat, vs: seq<Vma>, startBrk: nat, brk: nat, addr: nat) {
    Accepted(addr, startBrk) && UpperPageAddr(addr) < UpperPageAddr(brk) ==>
      && FindVma(vs, startBrk, 0) < |vs|
      && forall k: nat | k < (UpperPageAddr(brk) - UpperPageAddr(addr)) / PAGE_SIZE :: HasLeafTable(ram, root, PageAt(UpperPageAddr(addr), k))
  }

  lemma MayUnmap(ram: Ram, root: nat, vs: seq<Vma>, startBrk: nat, brk: nat, addr: nat, p: nat)
    requires MayCall(ram, root, vs, startBrk, brk, addr) && Accepted(addr, startBrk)
    requires p % PAGE_SIZE == 0 && UpperPageAddr(addr) <= p < UpperPageAddr(brk)
    ensures HasLeafTable(ram, root, p)
  {
    var lo := UpperPageAddr(addr);
    var k := (p - lo) / PAGE_SIZE;
    PageDistance(lo, p, UpperPageAddr(brk));
    assert PageAt(lo, k) == p;
  }

  lemma PageDistance(lo: nat, p: nat, hi: nat)
    requires lo % PAGE_SIZE == 0 && p % PAGE_SIZE == 0 && hi % PAGE_SIZE == 0 && lo <= p < hi
    ensures (p - lo) / PAGE_SIZE < (hi - lo) / PAGE_SIZE
    ensures lo + PAGE_SIZE * ((p - lo) / PAGE_SIZE) == p
  {
  }

  lemma UpperMono(a: nat, b: nat)
    requires a <= b
    ensures UpperPageAddr(a) <= UpperPageAddr(b)
    ensures a <= MAX_BRK_ADDR ==> UpperPageAddr(a) <= MAX_BRK_ADDR
    ensures a % PAGE_SIZE == 0 ==> UpperPageAddr(a) == a
  {
    assert MAX_BRK_ADDR % PAGE_SIZE == 0;
  }

  /** The heap area's lists after the blocks of [a, b) were dropped. */
  lemma ListsTrimmed(vs: seq<Vma>, startBrk: nat, stale: seq<PagesBlock>, lost: seq<PagesBlock>, a: nat, b: nat)
    requires var i := FindVma(vs, startBrk, 0); i < |vs| && FindVma(Trimmed(vs, i, a, b), startBrk, 0) == i
    requires stale <= HeapList(vs, startBrk)
    ensures var ws := Trimmed(vs, FindVma(vs, startBrk, 0), a, b);
            && HeapList(ws, startBrk) == Outside(HeapList(vs, startBrk), a, b)
            && Outside(stale, a, b) <= HeapList(ws, startBrk)
            && MappedBlocks(ws, startBrk, Outside(stale, a, b), Outside(lost, a, b)) == Outside(MappedBlocks(vs, startBrk, stale, lost), a, b)
            && HeapList(ws, startBrk) + Outside(lost, a, b) == Outside(HeapList(vs, startBrk) + lost, a, b)
  {
    hide FindVma, Outside;
    var bs := HeapList(vs, startBrk);
    var xs := bs[|stale|..];
    assert bs == stale + xs;
    OutsideAppend(stale, xs, a, b);
    OutsideAppend(xs, lost, a, b);
    OutsideAppend(bs, lost, a, b);
    var os := Outside(stale, a, b);
    assert (os + Outside(xs, a, b))[|os|..] == Outside(xs, a, b);
  }

  /** The heap area is private. */
  lemma HeapPrivate(vs: seq<Vma>, startBrk: nat, brk: nat)
    requires Layout(vs, startBrk, brk) && FindVma(vs, startBrk, 0) < |vs|
    ensures !vs[FindVma(vs, startBrk, 0)].shared && HeapList(vs, startBrk) == vs[FindVma(vs, startBrk, 0)].blocks
  {
  }

  /** The parts of the invariant after a shrink, on values. */
  lemma ShrinkKeeps(ram0: Ram, ram1: Ram, root: nat, tabs: map<nat, Node>, base: set<nat>, used0: set<nat>, used1: set<nat>,
                    vs: seq<Vma>, stale: seq<PagesBlock>, leaked: seq<PagesBlock>, lost: seq<PagesBlock>, startBrk: nat, brk: nat, addr: nat)
    requires FindVma(vs, startBrk, 0) < |vs| && Accepted(addr, startBrk) && UpperPageAddr(addr) < UpperPageAddr(brk)
    requires Ledger(used0, base, tabs, vs, leaked + lost) && GoodVmas(vs) && GoodBlocks(lost)
    requires Layout(vs, startBrk, brk) && LoadedMapped(ram0, root, vs) && HeapInside(vs, startBrk)
    requires stale <= HeapList(vs, startBrk)
    requires GraphOn(ram0, root, MappedBlocks(vs, startBrk, stale, lost), startBrk, MAX_BRK_ADDR)
    requires BelowBrk(HeapList(vs, startBrk) + lost, startBrk, brk)
    requires ClearsRange(ram0, ram1, root, UpperPageAddr(addr), UpperPageAddr(brk))
    requires multiset(used1) == multiset(used0) - BlocksPages(Inside(MappedBlocks(vs, startBrk, stale, lost), UpperPageAddr(addr), UpperPageAddr(brk)))
    ensures var lo, hi, i := UpperPageAddr(addr), UpperPageAddr(brk), FindVma(vs, startBrk, 0);
            var ws, stale', lost' := Trimmed(vs, i, lo, hi), Outside(stale, lo, hi), Outside(lost, lo, hi);
            && Ledger(used1, base, tabs, ws, leaked + Inside(stale, lo, hi) + lost') && GoodVmas(ws) && GoodBlocks(lost')
            && Layout(ws, startBrk, brk) && LoadedMapped(ram1, root, ws) && HeapInside(ws, startBrk)
            && stale' <= HeapList(ws, startBrk) && FindVma(ws, startBrk, 0) == i
            && GraphOn(ram1, root, MappedBlocks(ws, startBrk, stale', lost'), startBrk, MAX_BRK_ADDR)
            && BelowBrk(HeapList(ws, startBrk) + lost', startBrk, addr)
            && (addr == startBrk ==> ws[i].blocks == [])
  {
    var i := FindVma(vs, startBrk, 0);
    HeapPrivate(vs, startBrk, brk);
    var bs := MappedBlocks(vs, startBrk, stale, lost);
    MappedIs(vs, startBrk, stale, lost);
    LayoutBounds(vs, startBrk, brk);
    hide LeafEntry, Ledger, OwnedPages, BlocksPages, GraphOn, LoadedMapped, ClearsRange, BelowBrk, HeapInside,
         GoodVmas, GoodBlocks, Outside, Inside, FindVma, UpperPageAddr, MappedBlocks, HeapList, Layout;
    var lo, hi := UpperPageAddr(addr), UpperPageAddr(brk);
    UpperMono(startBrk, addr);
    UpperMono(brk, MAX_BRK_ADDR);
    GraphTrim(ram0, ram1, root, bs, startBrk, MAX_BRK_ADDR, lo, hi);
    BelowTrim(HeapList(vs, startBrk) + lost, startBrk, brk, addr);
    LedgerTrim(used0, used1, base, tabs, vs, leaked, lost, i, stale, lo, hi);
    TrimmedGood(vs, i, lo, hi);
    OutsideGood(lost, lo, hi);
    TrimmedLayout(vs, startBrk, brk, lo, hi);
    ListsTrimmed(vs, startBrk, stale, lost, lo, hi);
    LoadedTrim(ram0, ram1, root, vs, Trimmed(vs, i, lo, hi), startBrk, brk, lo, hi);
    if addr == startBrk {
      AllTrimmed(vs, startBrk, brk, lost);
    }
  }

  /** What shrinking from `oldBrk` to `brk` leaves, before the label `out`. */
  method Shrink(m: PageMemory, t: Task, addr: nat, ghost base: set<nat>)
    requires SpaceOk(m, t, base) && MayCall(m.ram, t.pgDir, t.mmap, t.startBrk, t.brk, addr)
    requires Accepted(addr, t.startBrk) && UpperPageAddr(addr) < UpperPageAddr(t.brk)
    modifies m`ram, m.usage, t`mmap, t`lost, t`stale, t`leaked
    ensures m.Valid() && m.ram.Keys == old(m.ram.Keys)
    ensures TreeOk(m.ram, t.pgDir, t.tabs) && Ledger(m.Used(), base, t.tabs, t.mmap, t.leaked + t.lost)
    ensures GoodVmas(t.mmap) && GoodBlocks(t.lost)
    ensures Layout(t.mmap, t.startBrk, t.brk) && LoadedMapped(m.ram, t.pgDir, t.mmap) && HeapInside(t.mmap, t.startBrk)
    ensures t.stale <= HeapList(t.mmap, t.startBrk)
    ensures GraphOn(m.ram, t.pgDir, MappedBlocks(t.mmap, t.startBrk, t.stale, t.lost), t.startBrk, MAX_BRK_ADDR)
    ensures BelowBrk(HeapList(t.mmap, t.startBrk) + t.lost, t.startBrk, addr)
    ensures ClearsRange(old(m.ram), m.ram, t.pgDir, UpperPageAddr(addr), UpperPageAddr(t.brk))
    ensures var lo, hi := UpperPageAddr(addr), UpperPageAddr(t.brk);
            && t.lost == Outside(old(t.lost), lo, hi) && t.stale == Outside(old(t.stale), lo, hi)
            && t.leaked == old(t.leaked) + Inside(old(t.stale), lo, hi)
            && multiset(m.Used()) == multiset(old(m.Used())) - BlocksPages(Inside(old(MappedBlocks(t.mmap, t.startBrk, t.stale, t.lost)), lo, hi))
    ensures var i := FindVma(old(t.mmap), t.startBrk, 0);
            && i < |old(t.mmap)| && t.mmap == Trimmed(old(t.mmap), i, UpperPageAddr(addr), UpperPageAddr(t.brk))
            && FindVma(t.mmap, t.startBrk, 0) == i
            && (addr == t.startBrk ==> t.mmap[i].blocks == [])
    ensures forall f :: f in m.ram && f !in t.tabs ==> m.ram[f] == old(m.ram)[f]
  {
    hide LeafEntry, HasLeafTable, TreeOk, Ledger, OwnedPages, BlocksPages, GraphOn, LoadedMapped, ClearsRange,
         BelowBrk, HeapInside, GoodVmas, GoodBlocks, Outside, Inside, FindVma, UpperPageAddr, MappedBlocks, HeapList,
         Layout;
    ghost var ram0, used0 := m.ram, m.Used();
    UnmapHeap(m, t, addr, base);
    ShrinkKeeps(ram0, m.ram, t.pgDir, t.tabs, base, used0, m.Used(), t.mmap, t.stale, t.leaked, t.lost, t.startBrk, t.brk,
      addr);
    var newbrk, oldbrk := UpperPageAddr(addr), UpperPageAddr(t.brk);
    DropBlocks(t, newbrk, oldbrk);
  }

  /** The records of the range are dropped: those of mapped pages, and the stale ones with their frames. */
  method DropBlocks(t: Task, lo: nat, hi: nat)
    requires FindVma(t.mmap, t.startBrk, 0) < |t.mmap|
    modifies t`mmap, t`lost, t`stale, t`leaked
    ensures t.mmap == Trimmed(old(t.mmap), FindVma(old(t.mmap), t.startBrk, 0), lo, hi)
    ensures t.lost == Outside(old(t.lost), lo, hi) && t.stale == Outside(old(t.stale), lo, hi)
    ensures t.leaked == old(t.leaked) + Inside(old(t.stale), lo, hi)
  {
    var i := FindVma(t.mmap, t.startBrk, 0);
    var kept := DeleteBlocks(t.mmap[i].blocks, lo, hi);
    t.mmap := t.mmap[i := t.mmap[i].(blocks := kept)];
    t.lost := Outside(t.lost, lo, hi);
    t.leaked := t.leaked + Inside(t.stale, lo, hi);
    t.stale := Outside(t.stale, lo, hi);
  }

  lemma UnmapBounds(startBrk: nat, brk: nat, addr: nat)
    requires startBrk % PAGE_SIZE == 0 && PAGE_SIZE <= startBrk && brk <= MAX_BRK_ADDR
    requires Accepted(addr, startBrk) && UpperPageAddr(addr) < UpperPageAddr(brk)
    ensures var lo, hi := UpperPageAddr(addr), UpperPageAddr(brk);
            lo != NULL && startBrk <= lo && hi <= MAX_BRK_ADDR <= VA_LIMIT && (hi - lo) % PAGE_SIZE == 0
  {
    UpperMono(startBrk, addr);
    UpperMono(brk, MAX_BRK_ADDR);
    hide UpperPageAddr;
    PagesBetween(UpperPageAddr(addr), UpperPageAddr(brk));
  }

  lemma PagesBetween(lo: nat, hi: nat)
    requires lo % PAGE_SIZE == 0 && hi % PAGE_SIZE == 0 && lo <= hi
    ensures (hi - lo) % PAGE_SIZE == 0
  {
  }

  /** What unmap_user_page_mapping asks for before a shrink. */
  lemma UnmapReady(ram: Ram, root: nat, tabs: map<nat, Node>, base: set<nat>, used: set<nat>, vs: seq<Vma>,
                   stale: seq<PagesBlock>, leaked: seq<PagesBlock>, lost: seq<PagesBlock>, startBrk: nat, brk: nat, lo: nat, hi: nat)
    requires FindVma(vs, startBrk, 0) < |vs| && startBrk <= lo && hi <= MAX_BRK_ADDR
    requires Ledger(used, base, tabs, vs, leaked + lost) && GoodVmas(vs) && GoodBlocks(lost)
    requires Layout(vs, startBrk, brk) && stale <= HeapList(vs, startBrk)
    requires GraphOn(ram, root, MappedBlocks(vs, startBrk, stale, lost), startBrk, MAX_BRK_ADDR)
    ensures var bs := MappedBlocks(vs, startBrk, stale, lost);
            GraphOn(ram, root, bs, lo, hi) && GoodBlocks(bs) && BlocksPages(bs) <= multiset(used)
  {
    var i := FindVma(vs, startBrk, 0);
    HeapPrivate(vs, startBrk, brk);
    MappedIs(vs, startBrk, stale, lost);
    hide LeafEntry, Ledger, BlocksPages, GraphOn, GoodVmas, GoodBlocks, FindVma, MappedBlocks, HeapList, Layout;
    GraphPart(ram, root, MappedBlocks(vs, startBrk, stale, lost), startBrk, MAX_BRK_ADDR, lo, hi);
    HeapPagesUsed(used, base, tabs, vs, leaked, lost, i, stale);
    HeapGood(vs, lost, i, |stale|);
  }

  lemma MappedIs(vs: seq<Vma>, startBrk: nat, stale: seq<PagesBlock>, lost: seq<PagesBlock>)
    requires stale <= HeapList(vs, startBrk)
    ensures MappedBlocks(vs, startBrk, stale, lost) == HeapList(vs, startBrk)[|stale|..] + lost
  {
  }

  lemma HeapThere(ram: Ram, root: nat, vs: seq<Vma>, startBrk: nat, brk: nat, addr: nat)
    requires MayCall(ram, root, vs, startBrk, brk, addr) && Accepted(addr, startBrk) && UpperPageAddr(addr) < UpperPageAddr(brk)
    ensures FindVma(vs, startBrk, 0) < |vs|
  {
  }

  lemma TablesThere(ram: Ram, root: nat, vs: seq<Vma>, startBrk: nat, brk: nat, addr: nat)
    requires MayCall(ram, root, vs, startBrk, brk, addr) && Accepted(addr, startBrk) && UpperPageAddr(addr) < UpperPageAddr(brk)
    ensures forall p: nat :: p % PAGE_SIZE == 0 && UpperPageAddr(addr) <= p < UpperPageAddr(brk) ==> HasLeafTable(ram, root, p)
  {
    hide HasLeafTable, MayCall, UpperPageAddr;
    forall p: nat | p % PAGE_SIZE == 0 && UpperPageAddr(addr) <= p < UpperPageAddr(brk) ensures HasLeafTable(ram, root, p) {
      MayUnmap(ram, root, vs, startBrk, brk, addr, p);
    }
  }

  /** The unmapping part of a shrink. */
  method UnmapHeap(m: PageMemory, t: Task, addr: nat, ghost base: set<nat>)
    requires SpaceOk(m, t, base) && MayCall(m.ram, t.pgDir, t.mmap, t.startBrk, t.brk, addr)
    requires Accepted(addr, t.startBrk) && UpperPageAddr(addr) < UpperPageAddr(t.brk)
    modifies m`ram, m.usage
    ensures m.Valid() && m.ram.Keys == old(m.ram.Keys) && TreeOk(m.ram, t.pgDir, t.tabs)
    ensures ClearsRange(old(m.ram), m.ram, t.pgDir, UpperPageAddr(addr), UpperPageAddr(t.brk))
    ensures multiset(m.Used()) ==
            multiset(old(m.Used())) - BlocksPages(Inside(MappedBlocks(t.mmap, t.startBrk, t.stale, t.lost), UpperPageAddr(addr), UpperPageAddr(t.brk)))
    ensures forall f :: f in m.ram && f !in t.tabs ==> m.ram[f] == old(m.ram)[f]
  {
    hide LeafEntry, HasLeafTable, TreeOk, Ledger, OwnedPages, BlocksPages, GraphOn, LoadedMapped, ClearsRange,
         BelowBrk, HeapInside, GoodVmas, GoodBlocks, Inside, FindVma, UpperPageAddr, MappedBlocks, HeapList, Layout,
         MayCall, UsedSet;
    LayoutBounds(t.mmap, t.startBrk, t.brk);
    UnmapBounds(t.startBrk, t.brk, addr);
    TablesThere(m.ram, t.pgDir, t.mmap, t.startBrk, t.brk, addr);
    var newbrk, oldbrk := UpperPageAddr(addr), UpperPageAddr(t.brk);
    HeapThere(m.ram, t.pgDir, t.mmap, t.startBrk, t.brk, addr);
    UnmapReady(m.ram, t.pgDir, t.tabs, base, m.Used(), t.mmap, t.stale, t.leaked, t.lost, t.startBrk, t.brk, newbrk,
      oldbrk);
    assert newbrk + (oldbrk - newbrk) == oldbrk && newbrk % PAGE_SIZE == 0;
    var ret := UnmapUserPageMapping(m, t.pgDir, newbrk, oldbrk - newbrk, t.tabs, MappedBlocks(t.mmap, t.startBrk, t.stale, t.lost));
  }

  lemma HeapGood(vs: seq<Vma>, lost: seq<PagesBlock>, i: nat, k: nat)
    requires GoodVmas(vs) && GoodBlocks(lost) && i < |vs| && k <= |vs[i].blocks|
    ensures GoodBlocks(vs[i].blocks[k..] + lost)
  {
    assert GoodBlocks(vs[i].blocks);
    assert forall j :: 0 <= j < |vs[i].blocks[k..]| ==> vs[i].blocks[k..][j] == vs[i].blocks[k + j];
  }

  /**
   * The area list after sys_brk: the heap area ends at the new break and keeps the blocks below it, page-wise, and
   * those from the old break on; a missing one is created, private and writable, if kmalloc has memory.
   */
  ghost predicate HeapFollows(vs: seq<Vma>, ws: seq<Vma>, startBrk: nat, oldBrk: nat, brk: nat, kmallocOk: bool) {
    var i := FindVma(vs, startBrk, 0);
    if i < |vs| then
      && |ws| == |vs| && (forall k :: 0 <= k < |vs| && k != i ==> ws[k] == vs[k])
      && ws[i] == vs[i].(end := brk, blocks := ws[i].blocks)
      && forall b :: b in ws[i].blocks <==> b in vs[i].blocks && !(UpperPageAddr(brk) <= b.userVirtAddr < UpperPageAddr(oldBrk))
    else ws == if kmallocOk then [Vma(startBrk, brk, false, true, NO_LMA, [])] + vs else vs
  }

  lemma Follows(us: seq<Vma>, vs: seq<Vma>, ws: seq<Vma>, startBrk: nat, oldBrk: nat, brk: nat, kmallocOk: bool, shrinks: bool, lo: nat, hi: nat)
    requires ws == Settled(vs, startBrk, brk, kmallocOk) && hi == UpperPageAddr(oldBrk)
    requires if shrinks then FindVma(us, startBrk, 0) < |us| && vs == Trimmed(us, FindVma(us, startBrk, 0), lo, hi) && lo == UpperPageAddr(brk)
             else vs == us && hi <= UpperPageAddr(brk)
    ensures HeapFollows(us, ws, startBrk, oldBrk, brk, kmallocOk)
  {
    var i := FindVma(us, startBrk, 0);
    FindVmaSame(us, vs, startBrk, 0);
    hide FindVma, UpperPageAddr;
  }

  /** sys_brk. The result is the break after the call. */
  method SysBrk(m: PageMemory, t: Task, addr: nat, kmallocOk: bool, ghost base: set<nat>) returns (ret: nat)
    requires SpaceOk(m, t, base) && MayCall(m.ram, t.pgDir, t.mmap, t.startBrk, t.brk, addr)
    modifies m`ram, m.usage, t`mmap, t`lost, t`stale, t`leaked, t`brk
    ensures SpaceOk(m, t, base) && m.ram.Keys == old(m.ram.Keys)
    ensures ret == t.brk && t.brk == if addr != 0 && t.startBrk <= addr <= 0x0C00_0000 then addr else old(t.brk)
    ensures HeapFollows(old(t.mmap), t.mmap, t.startBrk, old(t.brk), t.brk, kmallocOk)
    ensures var lo, hi := UpperPageAddr(addr), UpperPageAddr(old(t.brk));
            var i := FindVma(old(t.mmap), t.startBrk, 0);
            if Accepted(addr, t.startBrk) && lo < hi then
              && ClearsRange(old(m.ram), m.ram, t.pgDir, lo, hi)
              && t.lost == Outside(old(t.lost), lo, hi) && t.stale == Outside(old(t.stale), lo, hi)
              && t.leaked == old(t.leaked) + Inside(old(t.stale), lo, hi)
              && multiset(m.Used()) == multiset(old(m.Used())) - BlocksPages(Inside(old(MappedBlocks(t.mmap, t.startBrk, t.stale, t.lost)), lo, hi))
              && i < |old(t.mmap)| && t.mmap == Settled(Trimmed(old(t.mmap), i, lo, hi), t.startBrk, t.brk, kmallocOk)
            else m.ram == old(m.ram) && m.usage[..] == old(m.usage[..])
                 && t.lost == old(t.lost) && t.stale == old(t.stale) && t.leaked == old(t.leaked)
                 && t.mmap == Settled(old(t.mmap), t.startBrk, t.brk, kmallocOk)
    ensures forall f :: f in m.ram && f !in t.tabs ==> m.ram[f] == old(m.ram)[f]
  {
    hide LeafEntry, HasLeafTable, TreeOk, OwnedPages, BlocksPages, GraphOn, LoadedMapped, ClearsRange, BelowBrk,
         HeapInside, HeapList, Layout, GoodVmas, GoodBlocks, FindVma, UpperPageAddr, Settled, MayCall, Inside, Outside,
         UsedSet, Ledger;
    LayoutBounds(t.mmap, t.startBrk, t.brk);
    ghost var oldBrk, vs0 := t.brk, t.mmap;
    if addr != 0 && !(addr < t.startBrk || addr > MAX_BRK_ADDR) {
      if UpperPageAddr(addr) < UpperPageAddr(t.brk) {
        Shrink(m, t, addr, base);
      } else {
        BelowGrow(HeapList(t.mmap, t.startBrk) + t.lost, t.startBrk, oldBrk, addr);
      }
      StartsBelow(t.startBrk, oldBrk, addr);
      t.brk := addr;
    }
    ghost var vs := t.mmap;
    assert t.brk == t.startBrk && FindVma(vs, t.startBrk, 0) < |vs| ==> vs[FindVma(vs, t.startBrk, 0)].blocks == [] by {
      if t.brk == t.startBrk && FindVma(vs, t.startBrk, 0) < |vs| { HeapNonEmpty(vs, t.startBrk, oldBrk); }
    }
    SettledLayout(vs, t.startBrk, oldBrk, t.brk, kmallocOk);
    SettledBlocks(vs, t.startBrk, oldBrk, t.brk, kmallocOk);
    SettledLoaded(m.ram, t.pgDir, vs, t.startBrk, oldBrk, t.brk, kmallocOk);
    SettledMapped(vs, t.startBrk, t.brk, kmallocOk, t.stale, t.lost);
    OutStep(t, kmallocOk);
    ghost var lo, hi := UpperPageAddr(addr), UpperPageAddr(oldBrk);
    Follows(vs0, vs, t.mmap, t.startBrk, oldBrk, t.brk, kmallocOk, Accepted(addr, t.startBrk) && lo < hi, lo, hi);
    ret := t.brk;
    LedgerOf(m.Used(), base, t.tabs, vs, t.mmap, t.leaked + t.lost);
  }

  lemma SettledMapped(vs: seq<Vma>, startBrk: nat, brk: nat, kmallocOk: bool, stale: seq<PagesBlock>,
          lost: seq<PagesBlock>)
    ensures var ws := Settled(vs, startBrk, brk, kmallocOk);
            HeapList(ws, startBrk) == HeapList(vs, startBrk) ==> MappedBlocks(ws, startBrk, stale, lost) == MappedBlocks(vs, startBrk, stale, lost)
  {
  }

  lemma LedgerOf(used: set<nat>, base: set<nat>, tabs: map<nat, Node>, vs: seq<Vma>, ws: seq<Vma>, xs: seq<PagesBlock>)
    requires Ledger(used, base, tabs, vs, xs) && OwnedPages(ws) == OwnedPages(vs)
    ensures Ledger(used, base, tabs, ws, xs)
  {
  }

  lemma LayoutBounds(vs: seq<Vma>, startBrk: nat, brk: nat)
    requires Layout(vs, startBrk, brk)
    ensures startBrk % PAGE_SIZE == 0 && PAGE_SIZE <= startBrk <= brk <= MAX_BRK_ADDR && startBrk < MAX_BRK_ADDR
  {
  }

  /** A break at startBrk is below every larger one, page-wise. */
  lemma StartsBelow(startBrk: nat, oldBrk: nat, addr: nat)
    requires startBrk % PAGE_SIZE == 0 && startBrk <= oldBrk && startBrk <= addr
    ensures addr == startBrk && oldBrk > startBrk ==> UpperPageAddr(addr) < UpperPageAddr(oldBrk)
  {
  }

  /** The heap area, when it is found, reaches above startBrk. */
  lemma HeapNonEmpty(vs: seq<Vma>, startBrk: nat, brk: nat)
    requires Layout(vs, startBrk, brk) && FindVma(vs, startBrk, 0) < |vs|
    ensures brk > startBrk
  {
    assert Covers(vs[FindVma(vs, startBrk, 0)], startBrk);
  }

  /** The code at the label `out`. */
  method OutStep(t: Task, kmallocOk: bool)
    modifies t`mmap
    ensures t.mmap == Settled(old(t.mmap), t.startBrk, t.brk, kmallocOk)
  {
    var i := FindVma(t.mmap, t.startBrk, 0);
    if i == |t.mmap| {
      if kmallocOk {
        t.mmap := [Vma(t.startBrk, t.brk, false, true, NO_LMA, [])] + t.mmap;
      }
    } else {
      t.mmap := t.mmap[i := t.mmap[i].(end := t.brk)];
    }
  }
}
