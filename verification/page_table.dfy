/** mm/page_table.c: the three-level user page table as a tree of frames in memory. */
module PageTable {
  import opened Arith
  import opened Descriptor
  import opened Machine

  type Ram = map<nat, seq<nat>>

  /** Linear address of the frame an entry points to. */
  function Next(d: nat): nat { Va(PhyAddr(d)) }

  /** Entry `i` of the table at `f`; zero where there is no such table. */
  function Get(ram: Ram, f: nat, i: nat): nat {
    if f in ram && i < |ram[f]| then ram[f][i] else 0
  }

  /** Memory after the store table[i] = e. */
  function Put(ram: Ram, f: nat, i: nat, e: nat): Ram
    requires f in ram && i < |ram[f]|
  {
    var t: seq<nat> := ram[f][i := e];
    ram[f := t]
  }

  /** The last-level entry for `va`; zero if any level is empty. */
  function LeafEntry(ram: Ram, root: nat, va: nat): nat {
    var e0 := Get(ram, root, I0(va));
    if e0 == 0 then 0 else
    var e1 := Get(ram, Next(e0), I1(va));
    if e1 == 0 then 0 else Get(ram, Next(e1), I2(va))
  }

  /** Both upper levels exist for `va`. */
  predicate HasLeafTable(ram: Ram, root: nat, va: nat) {
    Get(ram, root, I0(va)) != 0 && Get(ram, Next(Get(ram, root, I0(va))), I1(va)) != 0
  }

  /** Where a table frame sits in the tree. */
  datatype Node = Dir | Mid(i: nat) | Leaf(i: nat, j: nat)

  ghost predicate At(tabs: map<nat, Node>, f: nat, n: Node) { f in tabs && tabs[f] == n }

  ghost predicate TableFrame(ram: Ram, f: nat) { f in ram && |ram[f]| == WORDS && InPool(f) }

  /** Frame `f` is what the tables hold at place `n`. */
  ghost predicate Placed(ram: Ram, root: nat, f: nat, n: Node) {
    match n
    case Dir => f == root
    case Mid(i) => i < 512 && Get(ram, root, i) != 0 && Next(Get(ram, root, i)) == f
    case Leaf(i, j) =>
      && i < 512 && j < 512 && Get(ram, root, i) != 0
      && Get(ram, Next(Get(ram, root, i)), j) != 0
      && Next(Get(ram, Next(Get(ram, root, i)), j)) == f
  }

  /**
   * `tabs` lists the table frames reachable from `root`, each with its only place: every entry of the two
   * upper levels is a valid table descriptor (its low bits are 3) and leads to a table of its own.
   */
  ghost predicate TreeOk(ram: Ram, root: nat, tabs: map<nat, Node>) {
    && At(tabs, root, Dir)
    && (forall f :: f in tabs ==> TableFrame(ram, f) && Placed(ram, root, f, tabs[f]))
    && (forall i: nat :: i < 512 && Get(ram, root, i) != 0 ==>
          At(tabs, Next(Get(ram, root, i)), Mid(i)) && Get(ram, root, i) % 4 == 3)
    && (forall f, j: nat :: f in tabs && tabs[f].Mid? && j < 512 && Get(ram, f, j) != 0 ==>
          At(tabs, Next(Get(ram, f, j)), Leaf(tabs[f].i, j)) && Get(ram, f, j) % 4 == 3)
  }

  /** An empty directory. */
  lemma FreshTree(ram: Ram, root: nat)
    requires TableFrame(ram, root) && ram[root] == seq(WORDS, _ => 0)
    ensures TreeOk(ram, root, map[root := Dir])
    ensures forall va: nat :: LeafEntry(ram, root, va) == 0
  {
  }

  /** `ram'` is `ram` with entry `i` of table `f` set to `e`, apart from frame `p`. */
  ghost predicate Stores(ram: Ram, ram': Ram, f: nat, i: nat, e: nat, p: nat) {
    && ram'.Keys == ram.Keys && f in ram && i < |ram[f]|
    && ram'[f] == ram[f][i := e]
    && forall g :: g in ram && g != f && g != p ==> ram'[g] == ram[g]
  }

  /** Hanging a new, empty middle table below the directory changes no translation. */
  lemma AddMid(ram: Ram, ram': Ram, root: nat, tabs: map<nat, Node>, i: nat, e: nat, p: nat)
    requires TreeOk(ram, root, tabs) && i < 512 && Get(ram, root, i) == 0
    requires p !in tabs && e % 4 == 3 && Next(e) == p
    requires Stores(ram, ram', root, i, e, p)
    requires TableFrame(ram', p) && ram'[p] == seq(WORDS, _ => 0)
    ensures TreeOk(ram', root, tabs[p := Mid(i)])
    ensures forall va: nat :: LeafEntry(ram', root, va) == LeafEntry(ram, root, va)
  {
    hide Next, InPool, I0, I1, I2;
    var ts := tabs[p := Mid(i)];
    forall f | f in ts ensures TableFrame(ram', f) && Placed(ram', root, f, ts[f]) {
    }
    forall k: nat | k < 512 && Get(ram', root, k) != 0
      ensures At(ts, Next(Get(ram', root, k)), Mid(k)) && Get(ram', root, k) % 4 == 3
    {
    }
    forall f, j: nat | f in ts && ts[f].Mid? && j < 512 && Get(ram', f, j) != 0
      ensures At(ts, Next(Get(ram', f, j)), Leaf(ts[f].i, j)) && Get(ram', f, j) % 4 == 3
    {
      if f != p { assert Get(ram, f, j) == Get(ram', f, j); }
    }
    forall va: nat ensures LeafEntry(ram', root, va) == LeafEntry(ram, root, va) {
      PathKept(ram, ram', root, tabs, va, root, i, e, p);
    }
  }

  /** The walk for `va` reads the same entries where the tables it passes are unchanged. */
  lemma PathKept(ram: Ram, ram': Ram, root: nat, tabs: map<nat, Node>, va: nat, f: nat, i: nat, e: nat, p: nat)
    requires TreeOk(ram, root, tabs) && f in tabs && i < 512 && Get(ram, f, i) == 0
    requires p !in tabs && e != 0 && Next(e) == p && !tabs[f].Leaf?
    requires Stores(ram, ram', f, i, e, p)
    requires p in ram' && ram'[p] == seq(WORDS, _ => 0)
    ensures LeafEntry(ram', root, va) == LeafEntry(ram, root, va)
  {
    hide Next, InPool, I0, I1, I2;
    var e0 := Get(ram, root, I0(va));
    if e0 != 0 {
      var g := Next(e0);
      assert At(tabs, g, Mid(I0(va)));
      var e1 := Get(ram, g, I1(va));
      if e1 != 0 {
        assert At(tabs, Next(e1), Leaf(I0(va), I1(va)));
      }
    }
  }

  /** Hanging a new, empty last-level table below a middle table changes no translation. */
  lemma AddLeaf(ram: Ram, ram': Ram, root: nat, tabs: map<nat, Node>, f: nat, j: nat, e: nat, p: nat)
    requires TreeOk(ram, root, tabs) && f in tabs && tabs[f].Mid? && j < 512 && Get(ram, f, j) == 0
    requires p !in tabs && e % 4 == 3 && Next(e) == p
    requires Stores(ram, ram', f, j, e, p)
    requires TableFrame(ram', p) && ram'[p] == seq(WORDS, _ => 0)
    ensures TreeOk(ram', root, tabs[p := Leaf(tabs[f].i, j)])
    ensures forall va: nat :: LeafEntry(ram', root, va) == LeafEntry(ram, root, va)
  {
    hide Next, InPool, I0, I1, I2;
    var n := Leaf(tabs[f].i, j);
    var ts := tabs[p := n];
    forall g | g in ts ensures TableFrame(ram', g) && Placed(ram', root, g, ts[g]) {
      if g != p {
        StillPlaced(ram, ram', root, tabs, f, j, e, p, g);
      }
    }
    forall g, k: nat | g in ts && ts[g].Mid? && k < 512 && Get(ram', g, k) != 0
      ensures At(ts, Next(Get(ram', g, k)), Leaf(ts[g].i, k)) && Get(ram', g, k) % 4 == 3
    {
    }
    forall va: nat ensures LeafEntry(ram', root, va) == LeafEntry(ram, root, va) {
      PathKept(ram, ram', root, tabs, va, f, j, e, p);
    }
  }

  lemma StillPlaced(ram: Ram, ram': Ram, root: nat, tabs: map<nat, Node>, f: nat, j: nat, e: nat, p: nat, g: nat)
    requires TreeOk(ram, root, tabs) && f in tabs && tabs[f].Mid? && j < 512 && Get(ram, f, j) == 0
    requires p !in tabs && e != 0
    requires Stores(ram, ram', f, j, e, p)
    requires g in tabs
    ensures TableFrame(ram', g) && Placed(ram', root, g, tabs[g])
  {
    hide Next, InPool;
    assert TableFrame(ram, g) && Placed(ram, root, g, tabs[g]);
    match tabs[g]
    case Dir =>
    case Mid(i) =>
    case Leaf(i, k) =>
      var h := Next(Get(ram, root, i));
      assert At(tabs, h, Mid(i));
      assert Get(ram', h, k) == Get(ram, h, k);
  }

  /** Filling or clearing a last-level entry changes the translation of exactly one page. */
  lemma SetLeaf(ram: Ram, ram': Ram, root: nat, tabs: map<nat, Node>, va: nat, e: nat)
    requires TreeOk(ram, root, tabs) && HasLeafTable(ram, root, va)
    requires Stores(ram, ram', LeafTable(ram, root, va), I2(va), e, LeafTable(ram, root, va))
    ensures TreeOk(ram', root, tabs)
    ensures LeafEntry(ram', root, va) == e && HasLeafTable(ram', root, va)
    ensures forall w: nat :: HasLeafTable(ram', root, w) == HasLeafTable(ram, root, w)
    ensures forall w: nat :: (I0(w), I1(w), I2(w)) != (I0(va), I1(va), I2(va)) ==> LeafEntry(ram', root, w) == LeafEntry(ram, root, w)
  {
    hide Next, InPool, I0, I1, I2;
    var m := Next(Get(ram, root, I0(va)));
    assert At(tabs, m, Mid(I0(va)));
    var l := Next(Get(ram, m, I1(va)));
    assert At(tabs, l, Leaf(I0(va), I1(va)));
    forall f | f in tabs && f != l ensures forall k: nat :: Get(ram', f, k) == Get(ram, f, k) {
      assert TableFrame(ram, f);
    }
    forall f | f in tabs ensures TableFrame(ram', f) && Placed(ram', root, f, tabs[f]) {
      assert TableFrame(ram, f) && Placed(ram, root, f, tabs[f]);
      match tabs[f]
      case Dir =>
      case Mid(i) =>
      case Leaf(i, j) => assert At(tabs, Next(Get(ram, root, i)), Mid(i));
    }
    forall w: nat
      ensures HasLeafTable(ram', root, w) == HasLeafTable(ram, root, w)
      ensures (I0(w), I1(w), I2(w)) != (I0(va), I1(va), I2(va)) ==> LeafEntry(ram', root, w) == LeafEntry(ram, root, w)
    {
      var e0 := Get(ram, root, I0(w));
      if e0 != 0 {
        assert At(tabs, Next(e0), Mid(I0(w)));
        var e1 := Get(ram, Next(e0), I1(w));
        if e1 != 0 {
          assert At(tabs, Next(e1), Leaf(I0(w), I1(w)));
        }
      }
    }
  }

  // ---------------------------------------------------------------------------------------
  // The code

  /** Index of `va` at the three levels; layers[] of the source. */
  function Index(va: nat, layer: nat): (i: nat)
    ensures i < 512
  {
    if layer == 0 then I0(va) else if layer == 1 then I1(va) else I2(va)
  }

  predicate SamePage(v: nat, w: nat) { I0(v) == I0(w) && I1(v) == I1(w) && I2(v) == I2(w) }

  lemma SamePageEntry(ram: Ram, root: nat, v: nat, w: nat)
    requires SamePage(v, w)
    ensures LeafEntry(ram, root, v) == LeafEntry(ram, root, w)
  {
  }

  /** Everything mapping code may do to memory: take pages for tables, write only tables. */
  ghost predicate OnlyTables(ram: Ram, ram': Ram, used: set<nat>, used': set<nat>, tabs: map<nat, Node>, tabs': map<nat, Node>) {
    && ram'.Keys == ram.Keys
    && tabs.Keys <= tabs'.Keys
    && used' == used + (tabs'.Keys - tabs.Keys)
    && (tabs'.Keys - tabs.Keys) !! used
    && (forall f :: f in tabs ==> tabs'[f] == tabs[f])
    && (forall f :: f in ram && f !in tabs' ==> ram'[f] == ram[f])
  }

  /** Frames in `used`, and those outside the pool, keep their contents. */
  ghost predicate Keeps(ram: Ram, ram': Ram, used: set<nat>) {
    ram'.Keys == ram.Keys && forall f :: f in ram && (f in used || !InPool(f)) ==> ram'[f] == ram[f]
  }

  lemma KeepsTrans(r0: Ram, r1: Ram, r2: Ram, u0: set<nat>, u1: set<nat>)
    requires Keeps(r0, r1, u0) && Keeps(r1, r2, u1) && u0 <= u1
    ensures Keeps(r0, r2, u0)
  {
  }

  lemma KeepsSelf(ram: Ram, used: set<nat>)
    ensures Keeps(ram, ram, used)
  {
  }

  /** The page of `va` gets entry `e` unless it had one; every other translation is as before. */
  ghost predicate MapsPage(ram: Ram, ram': Ram, root: nat, va: nat, e: nat) {
    forall w: nat :: LeafEntry(ram', root, w) == (if SamePage(w, va) && LeafEntry(ram, root, w) == 0 then e else LeafEntry(ram, root, w))
  }

  lemma OnlyTablesTrans(r0: Ram, r1: Ram, r2: Ram, u0: set<nat>, u1: set<nat>, u2: set<nat>,
                        t0: map<nat, Node>, t1: map<nat, Node>, t2: map<nat, Node>)
    requires OnlyTables(r0, r1, u0, u1, t0, t1) && OnlyTables(r1, r2, u1, u2, t1, t2)
    ensures OnlyTables(r0, r2, u0, u2, t0, t2)
  {
  }

  /** No page is left in the pool. */
  ghost predicate PoolExhausted(u: seq<bool>) { forall i: nat :: !FreeRun(u, i, 1) }

  lemma PoolDry(u: seq<bool>)
    requires forall i: nat :: !FreeRun(u, i, Pow2(0))
    ensures PoolExhausted(u)
  {
    assert Pow2(0) == 1;
  }

  lemma IsTable(ram: Ram, root: nat, tabs: map<nat, Node>, t: nat)
    requires TreeOk(ram, root, tabs) && t in tabs
    ensures TableFrame(ram, t)
  {
  }

  /** Installs a new table at an empty upper-level entry. */
  method InstallTable(m: PageMemory, pgDir: nat, t: nat, i: nat, attrs: nat, ghost tabs0: map<nat, Node>)
    returns (ok: bool, ghost tabs: map<nat, Node>)
    requires m.Valid() && TreeOk(m.ram, pgDir, tabs0) && tabs0.Keys <= m.Used() && GoodAttrs(attrs)
    requires t in tabs0 && !tabs0[t].Leaf? && i < 512 && Get(m.ram, t, i) == 0
    modifies m`ram, m.usage
    ensures m.Valid()
    ensures !ok ==> PoolExhausted(m.usage[..])
    ensures ok ==> TreeOk(m.ram, pgDir, tabs) && OnlyTables(old(m.ram), m.ram, old(m.Used()), m.Used(), tabs0, tabs)
    ensures ok ==> Get(m.ram, t, i) != 0 && Get(m.ram, t, i) % 4 == 3 && Get(m.ram, t, i) / BIT48 == attrs / BIT48
    ensures ok ==> forall w: nat :: LeafEntry(m.ram, pgDir, w) == LeafEntry(old(m.ram), pgDir, w)
    ensures ok ==> forall w: nat :: HasLeafTable(old(m.ram), pgDir, w) ==> HasLeafTable(m.ram, pgDir, w)
  {
    hide LeafEntry, HasLeafTable, PhyAddr, Entry, GoodAttrs, TreeOk, InPool;
    tabs := tabs0;
    ghost var ram0 := m.ram;
    IsTable(m.ram, pgDir, tabs0, t);
    var newPt := m.GetZeroedPages(0);
    if newPt == NULL {
      assert Pow2(0) == 1;
      return false, tabs;
    }
    PagesOne(newPt);
    PoolFrameGood(newPt);
    EntryPhyAddr(Pa(newPt), attrs);
    var e := Entry(Pa(newPt), attrs);
    m.ram := Put(m.ram, t, i, e);
    NewTable(ram0, m.ram, pgDir, tabs0, t, i, e, newPt);
    tabs := tabs0[newPt := if tabs0[t].Dir? then Mid(i) else Leaf(tabs0[t].i, i)];
    ok := true;
  }

  lemma PoolFrameGood(f: nat)
    requires InPool(f)
    ensures Pa(f) >= 0 && GoodFrame(Pa(f)) && Va(Pa(f)) == f
  {
  }

  lemma NewTable(ram0: Ram, ram: Ram, root: nat, tabs0: map<nat, Node>, t: nat, i: nat, e: nat, p: nat)
    requires TreeOk(ram0, root, tabs0) && t in tabs0 && !tabs0[t].Leaf? && i < 512 && Get(ram0, t, i) == 0
    requires p !in tabs0 && e % 4 == 3 && Next(e) == p && InPool(p)
    requires p in ram0 && ram.Keys == ram0.Keys
    requires ram[p] == seq(WORDS, _ => 0) && ram[t] == ram0[t][i := e]
    requires forall g :: g in ram0 && g != p && g != t ==> ram[g] == ram0[g]
    ensures TreeOk(ram, root, tabs0[p := if tabs0[t].Dir? then Mid(i) else Leaf(tabs0[t].i, i)])
    ensures forall w: nat :: LeafEntry(ram, root, w) == LeafEntry(ram0, root, w)
    ensures forall w: nat :: HasLeafTable(ram0, root, w) ==> HasLeafTable(ram, root, w)
    ensures Get(ram, t, i) != 0
  {
    assert TableFrame(ram0, t) && Placed(ram0, root, t, tabs0[t]);
    if tabs0[t].Dir? {
      AddMid(ram0, ram, root, tabs0, i, e, p);
    } else {
      AddLeaf(ram0, ram, root, tabs0, t, i, e, p);
    }
    hide Next, InPool, I0, I1, I2;
    forall w: nat | HasLeafTable(ram0, root, w) ensures HasLeafTable(ram, root, w) {
      assert At(tabs0, Next(Get(ram0, root, I0(w))), Mid(I0(w)));
    }
  }

  /**
   * Maps `virtAddr` to `phyAddr` unless it is mapped already, taking pages for the missing
   * tables on the way. Not ok: the pool ran dry and the kernel stopped at its assert.
   */
  method SetupPgForAddr(m: PageMemory, pgDir: nat, phyAddr: nat, virtAddr: nat, attrs: nat, ghost tabs0: map<nat, Node>)
    returns (ok: bool, ghost tabs: map<nat, Node>)
    requires m.Valid() && TreeOk(m.ram, pgDir, tabs0) && tabs0.Keys <= m.Used()
    requires GoodFrame(phyAddr) && GoodAttrs(attrs)
    modifies m`ram, m.usage
    ensures m.Valid()
    ensures !ok ==> PoolExhausted(m.usage[..])
    ensures ok ==> TreeOk(m.ram, pgDir, tabs) && OnlyTables(old(m.ram), m.ram, old(m.Used()), m.Used(), tabs0, tabs)
    ensures ok ==> HasLeafTable(m.ram, pgDir, virtAddr)
    ensures ok ==> forall w: nat :: HasLeafTable(old(m.ram), pgDir, w) ==> HasLeafTable(m.ram, pgDir, w)
    ensures ok ==> MapsPage(old(m.ram), m.ram, pgDir, virtAddr, Entry(phyAddr, attrs))
  {
    hide LeafEntry, HasLeafTable, PhyAddr, Entry, GoodAttrs, TreeOk, OnlyTables, MapsPage, PoolExhausted, InPool, I0,
         I1, I2;
    tabs := tabs0;
    ok := true;
    ghost var ram0, used0 := m.ram, m.Used();
    var nextLayerPt := pgDir;
    RootThere(m.ram, pgDir, tabs);
    NothingMoved(m.ram, used0, tabs);
    var i := 0;
    while i < 3
      invariant 0 <= i <= 3 && m.Valid() && ok
      invariant TreeOk(m.ram, pgDir, tabs) && OnlyTables(ram0, m.ram, used0, m.Used(), tabs0, tabs) && tabs.Keys <= m.Used()
      invariant i == 0 ==> nextLayerPt == pgDir && At(tabs, pgDir, Dir)
      invariant i == 1 ==> At(tabs, nextLayerPt, Mid(I0(virtAddr)))
      invariant i == 2 ==> At(tabs, nextLayerPt, Leaf(I0(virtAddr), I1(virtAddr)))
      invariant i < 3 ==> forall w: nat :: LeafEntry(m.ram, pgDir, w) == LeafEntry(ram0, pgDir, w)
      invariant forall w: nat :: HasLeafTable(ram0, pgDir, w) ==> HasLeafTable(m.ram, pgDir, w)
      invariant i == 3 ==> HasLeafTable(m.ram, pgDir, virtAddr)
      invariant i == 3 ==> MapsPage(ram0, m.ram, pgDir, virtAddr, Entry(phyAddr, attrs))
    {
      var index := Index(virtAddr, i);
      IsTable(m.ram, pgDir, tabs, nextLayerPt);
      ghost var ram1, used1, tabs1 := m.ram, m.Used(), tabs;
      if i != 2 {
        if m.ram[nextLayerPt][index] == 0 {
          ok, tabs := InstallTable(m, pgDir, nextLayerPt, index, attrs, tabs);
          if !ok {
            return;
          }
          OnlyTablesTrans(ram0, ram1, m.ram, used0, used1, m.Used(), tabs0, tabs1, tabs);
          StillAt(ram1, m.ram, used1, m.Used(), tabs1, tabs, nextLayerPt);
        }
        IsTable(m.ram, pgDir, tabs, nextLayerPt);
        NextTable(m.ram, pgDir, tabs, nextLayerPt, index);
      } else {
        LeafPath(m.ram, pgDir, tabs, virtAddr, nextLayerPt);
        if m.ram[nextLayerPt][index] == 0 {
          m.ram := Put(m.ram, nextLayerPt, index, Entry(phyAddr, attrs));
          FillLeaf(ram1, pgDir, tabs, virtAddr, nextLayerPt, Entry(phyAddr, attrs), used1);
          OnlyTablesTrans(ram0, ram1, m.ram, used0, used1, used1, tabs0, tabs, tabs);
        } else {
          LeafTaken(ram1, pgDir, virtAddr, Entry(phyAddr, attrs));
        }
        MapsPageFrom(ram0, ram1, m.ram, pgDir, virtAddr, Entry(phyAddr, attrs));
      }
      nextLayerPt := Next(m.ram[nextLayerPt][index]);
      i := i + 1;
    }
  }

  lemma RootThere(ram: Ram, root: nat, tabs: map<nat, Node>)
    requires TreeOk(ram, root, tabs)
    ensures At(tabs, root, Dir)
  {
  }

  lemma NothingMoved(ram: Ram, used: set<nat>, tabs: map<nat, Node>)
    ensures OnlyTables(ram, ram, used, used, tabs, tabs)
  {
  }

  lemma StillAt(ram: Ram, ram': Ram, used: set<nat>, used': set<nat>, tabs: map<nat, Node>, tabs': map<nat, Node>, t: nat)
    requires OnlyTables(ram, ram', used, used', tabs, tabs') && t in tabs && tabs.Keys <= used
    ensures t in tabs' && tabs'[t] == tabs[t] && tabs'.Keys <= used'
  {
  }

  /** The table an entry of an upper level leads to. */
  lemma NextTable(ram: Ram, root: nat, tabs: map<nat, Node>, t: nat, i: nat)
    requires TreeOk(ram, root, tabs) && t in tabs && i < 512 && Get(ram, t, i) != 0
    ensures tabs[t].Dir? ==> At(tabs, Next(Get(ram, t, i)), Mid(i))
    ensures tabs[t].Mid? ==> At(tabs, Next(Get(ram, t, i)), Leaf(tabs[t].i, i))
  {
    hide Next, InPool;
    assert Placed(ram, root, t, tabs[t]);
  }

  /** Storing an entry in an empty place of a last-level table maps its page. */
  lemma FillLeaf(ram: Ram, root: nat, tabs: map<nat, Node>, va: nat, t: nat, e: nat, used: set<nat>)
    requires TreeOk(ram, root, tabs) && At(tabs, t, Leaf(I0(va), I1(va))) && t in ram && |ram[t]| == WORDS && ram[t][I2(va)] == 0
    ensures var ram' := Put(ram, t, I2(va), e);
            && TreeOk(ram', root, tabs) && OnlyTables(ram, ram', used, used, tabs, tabs) && MapsPage(ram, ram', root, va, e)
            && HasLeafTable(ram', root, va) && forall w: nat :: HasLeafTable(ram', root, w) == HasLeafTable(ram, root, w)
  {
    var ram' := Put(ram, t, I2(va), e);
    LeafPath(ram, root, tabs, va, t);
    SetLeaf(ram, ram', root, tabs, va, e);
    SamePageLeaf(ram', root, va);
    SamePageLeaf(ram, root, va);
    hide TreeOk, LeafEntry, HasLeafTable, I0, I1, I2;
  }

  /** A page that is mapped stays as it is. */
  lemma LeafTaken(ram: Ram, root: nat, va: nat, e: nat)
    requires LeafEntry(ram, root, va) != 0
    ensures MapsPage(ram, ram, root, va, e)
  {
    SamePageLeaf(ram, root, va);
    hide LeafEntry, I0, I1, I2;
  }

  lemma MapsPageFrom(ram0: Ram, ram: Ram, ram': Ram, root: nat, va: nat, e: nat)
    requires (forall w: nat :: LeafEntry(ram, root, w) == LeafEntry(ram0, root, w)) && MapsPage(ram, ram', root, va, e)
    ensures MapsPage(ram0, ram', root, va, e)
  {
    hide LeafEntry, I0, I1, I2;
  }

  function LeafTable(ram: Ram, root: nat, va: nat): nat {
    Next(Get(ram, Next(Get(ram, root, I0(va))), I1(va)))
  }

  lemma LeafPath(ram: Ram, root: nat, tabs: map<nat, Node>, va: nat, t: nat)
    requires TreeOk(ram, root, tabs) && At(tabs, t, Leaf(I0(va), I1(va)))
    ensures HasLeafTable(ram, root, va) && LeafTable(ram, root, va) == t
    ensures LeafEntry(ram, root, va) == Get(ram, t, I2(va))
  {
    assert Placed(ram, root, t, tabs[t]);
  }

  lemma SamePageLeaf(ram: Ram, root: nat, va: nat)
    ensures forall w: nat :: SamePage(w, va) ==> LeafEntry(ram, root, w) == LeafEntry(ram, root, va)
  {
  }

  /** The page-aligned physical address `virtAddr` translates to; zero if its last-level entry is empty. */
  method WalkVirtAddr(m: PageMemory, pgDir: nat, virtAddr: nat, ghost tabs: map<nat, Node>) returns (phys: nat)
    requires m.Valid() && TreeOk(m.ram, pgDir, tabs) && HasLeafTable(m.ram, pgDir, virtAddr)
    ensures phys == PhyAddr(LeafEntry(m.ram, pgDir, virtAddr))
  {
    hide PhyAddr, I0, I1, I2;
    var nextLayerPt := pgDir;
    phys := 0;
    var i := 0;
    while i < 3
      invariant 0 <= i <= 3
      invariant i == 0 ==> nextLayerPt == pgDir
      invariant i == 1 ==> At(tabs, nextLayerPt, Mid(I0(virtAddr))) && nextLayerPt == Next(Get(m.ram, pgDir, I0(virtAddr)))
      invariant i == 2 ==> At(tabs, nextLayerPt, Leaf(I0(virtAddr), I1(virtAddr))) && nextLayerPt == LeafTable(m.ram, pgDir, virtAddr)
      invariant i == 3 ==> phys == PhyAddr(LeafEntry(m.ram, pgDir, virtAddr))
    {
      assert TableFrame(m.ram, nextLayerPt);
      var index := Index(virtAddr, i);
      phys := PhyAddr(m.ram[nextLayerPt][index]);
      nextLayerPt := Va(phys);
      i := i + 1;
    }
  }

  /** One page's translation, `e`, is gone; all others are as before. */
  ghost predicate ClearsPage(ram: Ram, ram': Ram, root: nat, va: nat) {
    forall w: nat :: LeafEntry(ram', root, w) == (if SamePage(w, va) then 0 else LeafEntry(ram, root, w))
  }

  /** Frees the page mapped at `virtAddr`, if any, and clears its entry. */
  method UnmapOneUserPage(m: PageMemory, pgDir: nat, virtAddr: nat, ghost tabs: map<nat, Node>) returns (r: FreeOutcome)
    requires m.Valid() && TreeOk(m.ram, pgDir, tabs) && HasLeafTable(m.ram, pgDir, virtAddr)
    modifies m`ram, m.usage
    ensures m.Valid() && m.ram.Keys == old(m.ram.Keys)
    ensures LeafEntry(old(m.ram), pgDir, virtAddr) == 0 ==> r == Freed && m.Used() == old(m.Used())
    ensures LeafEntry(old(m.ram), pgDir, virtAddr) != 0 ==>
              var f := Next(LeafEntry(old(m.ram), pgDir, virtAddr));
              && (r == Rejected <==> !InPool(f))
              && (r == Freed <==> InPool(f) && f in old(m.Used()))
              && m.Used() == (if r == Freed then old(m.Used()) - {f} else if r == Rejected then old(m.Used()) else m.Used())
    ensures r != Halted ==> TreeOk(m.ram, pgDir, tabs) && ClearsPage(old(m.ram), m.ram, pgDir, virtAddr)
    ensures r != Halted ==> forall w: nat :: HasLeafTable(m.ram, pgDir, w) == HasLeafTable(old(m.ram), pgDir, w)
    ensures forall f :: f in m.ram && f !in tabs ==> m.ram[f] == old(m.ram)[f]
  {
    hide LeafEntry, PhyAddr, I0, I1, I2, InPool;
    r := Freed;
    var nextLayerPt := pgDir;
    var i := 0;
    while i < 2
      invariant 0 <= i <= 2
      invariant i == 0 ==> nextLayerPt == pgDir
      invariant i == 1 ==> At(tabs, nextLayerPt, Mid(I0(virtAddr))) && nextLayerPt == Next(Get(m.ram, pgDir, I0(virtAddr)))
      invariant i == 2 ==> At(tabs, nextLayerPt, Leaf(I0(virtAddr), I1(virtAddr)))
    {
      assert TableFrame(m.ram, nextLayerPt);
      nextLayerPt := Next(m.ram[nextLayerPt][Index(virtAddr, i)]);
      i := i + 1;
    }
    LeafPath(m.ram, pgDir, tabs, virtAddr, nextLayerPt);
    hide HasLeafTable, Placed;
    assert TableFrame(m.ram, nextLayerPt);
    var index := Index(virtAddr, 2);
    var e := m.ram[nextLayerPt][index];
    if e != 0 {
      PagesOne(Next(e));
      assert InPool(Next(e)) ==> PAGE_SIZE * Pow2(0) <= PAGE_POOL_END - Next(e) by { RoomForOne(Next(e)); }
      r := m.FreePages(Next(e), 0);
      if r == Halted {
        return;
      }
    }
    ghost var ram1 := m.ram;
    m.ram := Put(m.ram, nextLayerPt, index, 0);
    SetLeaf(ram1, m.ram, pgDir, tabs, virtAddr, 0);
    SamePageLeaf(m.ram, pgDir, virtAddr);
  }

  lemma RoomForOne(f: nat)
    ensures InPool(f) ==> PAGE_SIZE * Pow2(0) <= PAGE_POOL_END - f
  {
    assert Pow2(0) == 1;
    if InPool(f) {
      assert (PAGE_POOL_END - PAGE_POOL_START) % PAGE_SIZE == 0;
    }
  }

  // ---------------------------------------------------------------------------------------
  // Ranges

  function PageAt(a: nat, k: nat): nat { a + PAGE_SIZE * k }

  /** Number of pages add_single_map visits for `size` bytes. */
  function PageCount(size: nat): nat { (size + (PAGE_SIZE - 1)) / PAGE_SIZE }

  lemma DistinctPages(virt: nat, j: nat, k: nat)
    requires j != k && PageAt(virt, j) < VA_LIMIT && PageAt(virt, k) < VA_LIMIT
    ensures !SamePage(PageAt(virt, j), PageAt(virt, k))
  {
    if SamePage(PageAt(virt, j), PageAt(virt, k)) {
      IndicesInjective(PageAt(virt, j), PageAt(virt, k));
      PageNumber(virt, j);
      PageNumber(virt, k);
    }
  }

  lemma PageNumber(virt: nat, k: nat)
    ensures PageAt(virt, k) / PAGE == virt / PAGE + k
  {
  }

  /**
   * Each of the first `n` pages from `virt` that was unmapped is now mapped to its own frame
   * from `phys` on; every translation that existed, and every one outside the range, is as before.
   */
  ghost predicate MapsRange(ram: Ram, ram': Ram, root: nat, virt: nat, phys: nat, n: nat, attrs: nat)
    requires GoodAttrs(attrs) && forall k :: 0 <= k < n ==> GoodFrame(PageAt(phys, k))
  {
    && (forall k :: 0 <= k < n && LeafEntry(ram, root, PageAt(virt, k)) == 0 ==>
          LeafEntry(ram', root, PageAt(virt, k)) == Entry(PageAt(phys, k), attrs))
    && (forall w: nat :: LeafEntry(ram, root, w) != 0 ==> LeafEntry(ram', root, w) == LeafEntry(ram, root, w))
    && (forall w: nat :: (forall k :: 0 <= k < n ==> !SamePage(w, PageAt(virt, k))) ==>
          LeafEntry(ram', root, w) == LeafEntry(ram, root, w))
  }

  lemma MapsOneMore(ram: Ram, ram1: Ram, ram2: Ram, root: nat, virt: nat, phys: nat, n: nat, attrs: nat)
    requires GoodAttrs(attrs) && forall k :: 0 <= k < n + 1 ==> GoodFrame(PageAt(phys, k))
    requires PageAt(virt, n) < VA_LIMIT
    requires MapsRange(ram, ram1, root, virt, phys, n, attrs)
    requires MapsPage(ram1, ram2, root, PageAt(virt, n), Entry(PageAt(phys, n), attrs))
    ensures MapsRange(ram, ram2, root, virt, phys, n + 1, attrs)
  {
    hide LeafEntry, Entry, PageAt, I0, I1, I2;
    forall k | 0 <= k < n + 1 && LeafEntry(ram, root, PageAt(virt, k)) == 0
      ensures LeafEntry(ram2, root, PageAt(virt, k)) == Entry(PageAt(phys, k), attrs)
    {
      if k < n {
      } else {
        forall j | 0 <= j < n ensures !SamePage(PageAt(virt, n), PageAt(virt, j)) {
          PageAtMono(virt, j, n);
          DistinctPages(virt, n, j);
        }
      }
    }
    forall w: nat | forall k :: 0 <= k < n + 1 ==> !SamePage(w, PageAt(virt, k))
      ensures LeafEntry(ram2, root, w) == LeafEntry(ram, root, w)
    {
      assert !SamePage(w, PageAt(virt, n));
    }
  }

  lemma PageAtMono(a: nat, j: nat, k: nat)
    requires j <= k
    ensures PageAt(a, j) <= PageAt(a, k)
  {
  }

  /** add_single_map: maps `size` bytes page by page. */
  method AddSingleMap(m: PageMemory, pgDir: nat, phyAddr: nat, virtAddr: nat, size: nat, attrs: nat,
                      ghost tabs0: map<nat, Node>)
    returns (ok: bool, ghost tabs: map<nat, Node>)
    requires m.Valid() && TreeOk(m.ram, pgDir, tabs0) && tabs0.Keys <= m.Used()
    requires GoodAttrs(attrs) && phyAddr % PAGE == 0 && phyAddr + size <= BIT48 && virtAddr + size <= VA_LIMIT
    modifies m`ram, m.usage
    ensures forall k :: 0 <= k < PageCount(size) ==> GoodFrame(PageAt(phyAddr, k))
    ensures m.Valid()
    ensures !ok ==> PoolExhausted(m.usage[..])
    ensures ok ==> TreeOk(m.ram, pgDir, tabs) && OnlyTables(old(m.ram), m.ram, old(m.Used()), m.Used(), tabs0, tabs)
    ensures ok ==> MapsRange(old(m.ram), m.ram, pgDir, virtAddr, phyAddr, PageCount(size), attrs)
    ensures ok ==> forall k :: 0 <= k < PageCount(size) ==> HasLeafTable(m.ram, pgDir, PageAt(virtAddr, k))
    ensures ok ==> forall w: nat :: HasLeafTable(old(m.ram), pgDir, w) ==> HasLeafTable(m.ram, pgDir, w)
  {
    hide LeafEntry, HasLeafTable, Entry, I0, I1, I2, TreeOk, MapsRange, MapsPage, OnlyTables, PoolExhausted;
    RangeFrames(phyAddr, virtAddr, size);
    tabs := tabs0;
    ok := true;
    ghost var ram0, used0 := m.ram, m.Used();
    Unmoved(ram0, pgDir, virtAddr, phyAddr, attrs, used0, tabs0);
    var endAddr := phyAddr + size;
    var phys, virt := phyAddr, virtAddr;
    ghost var k := 0;
    while phys < endAddr
      invariant 0 <= k <= PageCount(size) && phys == PageAt(phyAddr, k) && virt == PageAt(virtAddr, k)
      invariant m.Valid() && ok && tabs.Keys <= m.Used()
      invariant TreeOk(m.ram, pgDir, tabs) && OnlyTables(ram0, m.ram, used0, m.Used(), tabs0, tabs)
      invariant MapsRange(ram0, m.ram, pgDir, virtAddr, phyAddr, k, attrs)
      invariant forall j :: 0 <= j < k ==> HasLeafTable(m.ram, pgDir, PageAt(virtAddr, j))
      invariant forall w: nat :: HasLeafTable(ram0, pgDir, w) ==> HasLeafTable(m.ram, pgDir, w)
      decreases PageCount(size) - k
    {
      ghost var ram1, used1, tabs1 := m.ram, m.Used(), tabs;
      ok, tabs := SetupPgForAddr(m, pgDir, phys, virt, attrs, tabs);
      if !ok {
        return;
      }
      UsedTables(ram1, m.ram, used1, m.Used(), tabs1, tabs);
      OnlyTablesTrans(ram0, ram1, m.ram, used0, used1, m.Used(), tabs0, tabs1, tabs);
      MapsOneMore(ram0, ram1, m.ram, pgDir, virtAddr, phyAddr, k, attrs);
      phys, virt := phys + PAGE_SIZE, virt + PAGE_SIZE;
      k := k + 1;
    }
  }

  lemma RangeFrames(phys: nat, virt: nat, size: nat)
    requires phys % PAGE == 0 && phys + size <= BIT48 && virt + size <= VA_LIMIT
    ensures forall k :: 0 <= k < PageCount(size) ==> GoodFrame(PageAt(phys, k)) && PageAt(virt, k) < VA_LIMIT
    ensures forall k: nat :: k < PageCount(size) <==> PageAt(phys, k) < phys + size
  {
    forall k: nat ensures k < PageCount(size) <==> PageAt(phys, k) < phys + size {
    }
    forall k: nat | k < PageCount(size) ensures GoodFrame(PageAt(phys, k)) && PageAt(virt, k) < VA_LIMIT {
      assert PageAt(phys, k) % PAGE == 0;
    }
  }

  lemma UsedTables(ram: Ram, ram': Ram, used: set<nat>, used': set<nat>, tabs: map<nat, Node>, tabs': map<nat, Node>)
    requires OnlyTables(ram, ram', used, used', tabs, tabs') && tabs.Keys <= used
    ensures tabs'.Keys <= used'
  {
  }

  lemma Unmoved(ram: Ram, root: nat, virt: nat, phys: nat, attrs: nat, used: set<nat>, tabs: map<nat, Node>)
    requires GoodAttrs(attrs)
    ensures MapsRange(ram, ram, root, virt, phys, 0, attrs) && OnlyTables(ram, ram, used, used, tabs, tabs)
  {
  }
}
