/** sys_fork (kernel/isr.c): the child's areas, pages and page table, and the rollback on failure. */
module Fork {
  import opened Arith
  import opened Bytes
  import opened Descriptor
  import opened Machine
  import opened PageTable
  import opened VmBlocks
  import opened AddressSpace
  import opened DemandPaging
  import opened VmSetup
  import opened Brk
  import opened Exit

  /** get_order: the least order whose pages hold `size` bytes, from `i` on. */
  function GetOrder(size: nat, i: nat): (r: nat)
    requires i <= 64
    ensures i <= r <= 64
    ensures r < 64 ==> Pow2(r) * PAGE_SIZE >= size
    ensures forall k :: i <= k < r ==> Pow2(k) * PAGE_SIZE < size
    decreases 64 - i
  {
    if i == 64 then i else if Pow2(i) * PAGE_SIZE >= size then i else GetOrder(size, i + 1)
  }

  lemma OrderHolds(size: nat)
    requires size <= VA_LIMIT
    ensures PageCount(size) <= Pow2(GetOrder(size, 0))
  {
    var r := GetOrder(size, 0);
    Pow2At27();
    PagesHold(size, Pow2(r));
  }

  lemma PagesHold(size: nat, n: nat)
    requires n * PAGE_SIZE >= size
    ensures PageCount(size) <= n
  {
  }

  lemma Pow2At27()
    ensures Pow2(27) * PAGE_SIZE == VA_LIMIT
  {
    assert Pow2(6) == 64;
    assert Pow2(12) == 2 * (2 * (2 * (2 * (2 * (2 * Pow2(6))))));
    assert Pow2(18) == 2 * (2 * (2 * (2 * (2 * (2 * Pow2(12))))));
    assert Pow2(24) == 2 * (2 * (2 * (2 * (2 * (2 * Pow2(18))))));
    assert Pow2(27) == 2 * (2 * (2 * Pow2(24)));
  }

  /** One area of a parent: loaded ones are not empty and do not start at zero, empty ones have no pages. */
  ghost predicate AreaForkable(v: Vma) {
    && v.end <= VA_LIMIT && (v.shared ==> Loaded(v))
    && (Loaded(v) ==> v.start > 0)
    && (v.start < v.end || (!Loaded(v) && v.blocks == []))
    && (!Loaded(v) ==> forall i :: 0 <= i < |v.blocks| ==> v.blocks[i].userVirtAddr != NULL)
  }

  /** What the parent's areas must be. */
  ghost predicate Forkable(vs: seq<Vma>) {
    AllLoadable(vs) && forall j :: 0 <= j < |vs| ==> AreaForkable(vs[j])
  }

  /** The frame page `k` of a parent area is read from. */
  function SourcePage(ram: Ram, root: nat, v: Vma, k: nat): nat { Next(LeafEntry(ram, root, UserPage(v, k))) }

  /** A frame that exists and is not a free pool page. */
  ghost predicate HeldFrame(ram: Ram, f: nat, used: set<nat>) { f in ram && (InPool(f) ==> f in used) }

  /** The frames the copies read exist, and none of them is a free pool page. */
  ghost predicate Readable(ram: Ram, root: nat, used: set<nat>, v: Vma) {
    && (Loaded(v) && !v.shared ==> forall k: nat :: k < VmaPages(v) ==> HeldFrame(ram, SourcePage(ram, root, v, k), used))
    && (!Loaded(v) ==> forall i :: 0 <= i < |v.blocks| ==> v.blocks[i].linearAddr in ram && v.blocks[i].linearAddr in used)
  }

  /**
   * Child area `c` is a copy of parent area `v`: shared frames are the same, others are pages that were
   * free when the fork began and hold the parent's contents of that moment (`ram0`).
   */
  ghost predicate Clone(ram0: Ram, ram: Ram, root: nat, used0: set<nat>, used: set<nat>, v: Vma, c: Vma) {
    && c.start == v.start && c.end == v.end && c.shared == v.shared && c.write == v.write
    && (v.shared ==> c.lma == v.lma && c.blocks == [])
    && (!v.shared && Loaded(v) ==>
          && |c.blocks| == 1 && c.blocks[0].userVirtAddr == v.start && GoodBlock(c.blocks[0])
          && c.lma == Pa(c.blocks[0].linearAddr) && VmaPages(v) <= Pow2(c.blocks[0].order)
          && Pages(c.blocks[0].linearAddr, Pow2(c.blocks[0].order)) !! used0
          && Pages(c.blocks[0].linearAddr, Pow2(c.blocks[0].order)) <= used
          && forall k: nat :: k < VmaPages(v) ==> SameBytes(ram0, SourcePage(ram0, root, v, k), ram, PageAt(c.blocks[0].linearAddr, k), PageBytes(v, k)))
    && (!v.shared && !Loaded(v) ==> c.lma == NO_LMA && |c.blocks| == |v.blocks| && ClonedBlocks(ram0, ram, used0, used, v, c, |v.blocks|))
  }

  ghost predicate SameContents(ram0: Ram, f0: nat, ram: Ram, f: nat) { f0 in ram0 && f in ram && ram[f] == ram0[f0] }

  /** The bytes of page `k` that belong to the area: all of them, except in the last page. */
  function PageBytes(v: Vma, k: nat): nat {
    var left := v.end - v.start - PAGE_SIZE * k;
    if left <= 0 then 0 else if left <= PAGE_SIZE then left else PAGE_SIZE
  }

  /** The first `n` bytes of word `w` of a page: all, some of the low ones, or none of its eight bytes. */
  predicate SameWord(x: nat, y: nat, w: nat, n: nat) {
    if 8 * (w + 1) <= n then x == y
    else 8 * w < n ==> x % Pow256(n - 8 * w) == y % Pow256(n - 8 * w)
  }

  /** The first `n` bytes of frame `f` are those of frame `f0` in the memory `ram0`. */
  ghost predicate SameBytes(ram0: Ram, f0: nat, ram: Ram, f: nat, n: nat) {
    && f0 in ram0 && f in ram && |ram0[f0]| == WORDS && |ram[f]| == WORDS
    && forall w :: 0 <= w < WORDS ==> SameWord(ram[f][w], ram0[f0][w], w, n)
  }

  /** memcpy of `n` bytes between pages. */
  function CopyPage(dst: seq<nat>, src: seq<nat>, n: nat): (r: seq<nat>)
    requires |dst| == WORDS && |src| == WORDS
    ensures |r| == WORDS && forall w :: 0 <= w < WORDS ==> SameWord(r[w], src[w], w, n)
  {
    seq(WORDS, w requires 0 <= w < WORDS => CopyWord(dst[w], src[w], w, n))
  }

  function CopyWord(x: nat, y: nat, w: nat, n: nat): (r: nat)
    ensures SameWord(r, y, w, n)
    ensures 8 * w >= n ==> r == x
  {
    if 8 * (w + 1) <= n then y else if 8 * w < n then Splice(x, y, Pow256(n - 8 * w)) else x
  }

  /** `x` with its part below `p` replaced by that of `y`. */
  function Splice(x: nat, y: nat, p: nat): (r: nat)
    requires p > 0
    ensures r % p == y % p && r / p == x / p
  {
    ModSmall(x, p);
    DivUnique(x - x % p + y % p, x / p, y % p, p);
    x - x % p + y % p
  }

  /** The first `n` demand-paged pages of `v` were copied to fresh pages recorded in `c`. */
  ghost predicate ClonedBlocks(ram0: Ram, ram: Ram, used0: set<nat>, used: set<nat>, v: Vma, c: Vma, n: nat)
    requires n <= |v.blocks|
  {
    && |c.blocks| == n
    && forall i :: 0 <= i < n ==>
         && c.blocks[i].userVirtAddr == v.blocks[i].userVirtAddr && c.blocks[i].order == 0
         && c.blocks[i].linearAddr !in used0 && c.blocks[i].linearAddr in used
         && SameContents(ram0, v.blocks[i].linearAddr, ram, c.blocks[i].linearAddr)
  }

  /** Pages in use during the fork: those before it, the child's directory, and the child's blocks. */
  ghost predicate ForkLedger(used: set<nat>, used0: set<nat>, tabs: map<nat, Node>, cs: seq<Vma>) {
    multiset(used) == multiset(used0) + multiset(tabs.Keys) + OwnedPages(cs)
  }

  lemma LedgerGrows(used: set<nat>, used0: set<nat>, tabs: map<nat, Node>, cs: seq<Vma>)
    requires ForkLedger(used, used0, tabs, cs)
    ensures used0 <= used && tabs.Keys <= used && tabs.Keys !! used0
    ensures OwnedPages(cs) + multiset(tabs.Keys) <= multiset(used)
  {
    hide OwnedPages;
    var o := OwnedPages(cs);
    forall f ensures multiset(used)[f] == multiset(used0)[f] + multiset(tabs.Keys)[f] + o[f] {
      assert multiset(used)[f] == (multiset(used0) + multiset(tabs.Keys) + o)[f];
    }
    forall f ensures (f in used0 ==> f in used) && (f in tabs ==> f in used && f !in used0)
                  && (o + multiset(tabs.Keys))[f] <= multiset(used)[f]
    {
      assert f in used <==> multiset(used)[f] > 0;
      assert f in tabs.Keys <==> multiset(tabs.Keys)[f] > 0;
    }
  }

  /** A page-table walk depends on the table frames only. */
  lemma SameTables(ram: Ram, ram': Ram, root: nat, tabs: map<nat, Node>, used: set<nat>)
    requires TreeOk(ram, root, tabs) && tabs.Keys <= used && Keeps(ram, ram', used)
    ensures forall w: nat :: LeafEntry(ram', root, w) == LeafEntry(ram, root, w)
  {
    hide Next, InPool, I0, I1, I2;
    forall w: nat ensures LeafEntry(ram', root, w) == LeafEntry(ram, root, w) {
      var e0 := Get(ram, root, I0(w));
      if e0 != 0 {
        assert At(tabs, Next(e0), Mid(I0(w)));
        var e1 := Get(ram, Next(e0), I1(w));
        if e1 != 0 {
          assert At(tabs, Next(e1), Leaf(I0(w), I1(w)));
        }
      }
    }
  }

  /** A finished copy stays one while only frames outside `used` are written. */
  lemma CloneKept(ram0: Ram, ram1: Ram, ram2: Ram, root: nat, used0: set<nat>, used1: set<nat>, used2: set<nat>, v: Vma,
          c: Vma)
    requires Clone(ram0, ram1, root, used0, used1, v, c) && Keeps(ram1, ram2, used1) && used1 <= used2
    ensures Clone(ram0, ram2, root, used0, used2, v, c)
  {
    hide LeafEntry, Next, InPool, Pages, SameWord, PageBytes;
    if !v.shared && Loaded(v) {
      forall k: nat | k < VmaPages(v)
        ensures SameBytes(ram0, SourcePage(ram0, root, v, k), ram2, PageAt(c.blocks[0].linearAddr, k), PageBytes(v, k))
      {
        PageInBlock(c.blocks[0].linearAddr, Pow2(c.blocks[0].order), k);
        assert SameBytes(ram0, SourcePage(ram0, root, v, k), ram1, PageAt(c.blocks[0].linearAddr, k), PageBytes(v, k));
      }
    }
  }

  lemma PageInBlock(a: nat, n: nat, k: nat)
    requires k < n
    ensures PageAt(a, k) in Pages(a, n)
  {
    assert PageAt(a, k) == a + PAGE_SIZE * k;
  }

  lemma PageInPool(a: nat, n: nat, k: nat)
    requires InPool(a) && PAGE_SIZE * n <= PAGE_POOL_END - a && k < n
    ensures InPool(PageAt(a, k))
  {
    assert (a + PAGE_SIZE * k - PAGE_POOL_START) % PAGE_SIZE == 0;
  }

  /** memcpy from user memory, read through the parent's page table, to `n` fresh pages. */
  method CopyArea(m: PageMemory, root: nat, v: Vma, page: nat, n: nat, ghost tabs: map<nat, Node>, ghost used: set<nat>)
    requires m.Valid() && TreeOk(m.ram, root, tabs) && tabs.Keys <= used
    requires InPool(page) && PAGE_SIZE * n <= PAGE_POOL_END - page && Pages(page, n) !! used
    requires n == VmaPages(v)
    requires forall k: nat :: k < n ==> HeldFrame(m.ram, SourcePage(m.ram, root, v, k), used)
    modifies m`ram
    ensures m.Valid() && Keeps(old(m.ram), m.ram, used)
    ensures forall k: nat :: k < n ==> SameBytes(old(m.ram), SourcePage(old(m.ram), root, v, k), m.ram, PageAt(page, k), PageBytes(v, k))
  {
    hide LeafEntry, Next, InPool, TreeOk, Pages, PageAt, SameWord, PageBytes, CopyPage;
    ghost var ram0 := m.ram;
    for k := 0 to n
      invariant m.Valid() && Keeps(ram0, m.ram, used)
      invariant forall j: nat :: j < k ==> SameBytes(ram0, SourcePage(ram0, root, v, j), m.ram, PageAt(page, j), PageBytes(v, j))
    {
      SameTables(ram0, m.ram, root, tabs, used);
      PageInBlock(page, n, k);
      PageInPool(page, n, k);
      PoolPageThere(m, PageAt(page, k));
      var src := SourcePage(m.ram, root, v, k);
      assert HeldFrame(ram0, SourcePage(ram0, root, v, k), used);
      assert src == SourcePage(ram0, root, v, k);
      forall j: nat | j < k ensures PageAt(page, j) != PageAt(page, k) { DifferentAt(page, j, k); }
      PageCopied(m.ram[PageAt(page, k)], m.ram[src], PageBytes(v, k));
      m.ram := m.ram[PageAt(page, k) := CopyPage(m.ram[PageAt(page, k)], m.ram[src], PageBytes(v, k))];
    }
  }

  lemma PageCopied(dst: seq<nat>, src: seq<nat>, n: nat)
    requires |dst| == WORDS && |src| == WORDS
    ensures |CopyPage(dst, src, n)| == WORDS && forall w :: 0 <= w < WORDS ==> SameWord(CopyPage(dst, src, n)[w], src[w], w, n)
  {
  }

  lemma DifferentAt(a: nat, j: nat, k: nat)
    requires j != k
    ensures PageAt(a, j) != PageAt(a, k)
  {
  }

  lemma PoolPageThere(m: PageMemory, f: nat)
    requires m.Valid() && InPool(f)
    ensures f in m.ram
  {
    var n := (f - PAGE_POOL_START) / PAGE_SIZE;
    assert f == Frame(n) && n < MAX_NUM_PAGES;
  }

  // ---------------------------------------------------------------------------------------
  // The account

  /** A new first area with no blocks changes nothing; one with a block adds its pages. */
  lemma LedgerPrepend(used: set<nat>, used0: set<nat>, tabs: map<nat, Node>, cs: seq<Vma>, c: Vma)
    requires ForkLedger(used, used0, tabs, cs) && c.blocks == []
    ensures ForkLedger(used, used0, tabs, [c] + cs)
  {
    OwnedCons(c, cs);
    NoBlocks();
  }

  lemma LedgerBlock(used: set<nat>, used': set<nat>, used0: set<nat>, tabs: map<nat, Node>, cs: seq<Vma>, b: PagesBlock)
    requires ForkLedger(used, used0, tabs, cs) && |cs| > 0 && !cs[0].shared
    requires Pages(b.linearAddr, Pow2(b.order)) !! used && used' == used + Pages(b.linearAddr, Pow2(b.order))
    ensures ForkLedger(used', used0, tabs, Recorded(cs, 0, b))
  {
    hide OwnedPages, BlocksPages;
    var v := cs[0].(blocks := cs[0].blocks + [b]);
    OwnedUpdate(cs, 0, v);
    BlocksAppend(cs[0].blocks, [b]);
    BlocksOne(b);
    Cancel(OwnedPages(Recorded(cs, 0, b)), OwnedPages(cs), BlocksPages(cs[0].blocks), BlockPages(b));
    Joined(used, Pages(b.linearAddr, Pow2(b.order)));
    var r, o, p := multiset(used0) + multiset(tabs.Keys), OwnedPages(cs), BlockPages(b);
    assert r + o + p == r + (o + p);
  }

  lemma Joined(used: set<nat>, ps: set<nat>)
    requires ps !! used
    ensures multiset(used + ps) == multiset(used) + multiset(ps)
    ensures used + ps - ps == used
  {
  }

  // ---------------------------------------------------------------------------------------
  // One area

  /** Which calls of kmalloc succeed, counted from the start of the fork. */
  type Kmalloc = nat -> bool

  /** setup_vma: a new area in front of the list. */
  function NewVma(v: Vma, lma: nat): Vma { Vma(v.start, v.end, v.shared, v.write, lma, []) }

  /** The state of the fork between two steps. */
  ghost predicate Forking(m: PageMemory, ram0: Ram, used0: set<nat>, tabs: map<nat, Node>, cs: seq<Vma>)
    reads m, m.usage
  {
    m.Valid() && ForkLedger(m.Used(), used0, tabs, cs) && GoodVmas(cs) && Keeps(ram0, m.ram, used0)
  }

  /** Pages a copy of `v` asks the pool for at a time. */
  function Need(v: Vma): nat { if Loaded(v) && !v.shared && v.start <= v.end then Pow2(GetOrder(v.end - v.start, 0)) else 1 }

  /** Calls `a` to `b` of kmalloc succeed. */
  ghost predicate Granted(kmalloc: Kmalloc, a: nat, b: nat) { forall k :: a <= k < b ==> kmalloc(k) }

  /** Of the calls from `a` on, call `b` - 1 was the last and the only one refused. */
  ghost predicate Refused(kmalloc: Kmalloc, a: nat, b: nat) { a < b && Granted(kmalloc, a, b - 1) && !kmalloc(b - 1) }

  /** Calls of kmalloc for a copy of `v`: one for the area, one for every block. */
  function CallsFor(v: Vma): nat { if v.shared then 1 else if Loaded(v) then 2 else 1 + |v.blocks| }

  function CallsForAll(vs: seq<Vma>, n: nat): nat
    requires n <= |vs|
  {
    if n == 0 then 0 else CallsForAll(vs, n - 1) + CallsFor(vs[n - 1])
  }

  /** How copying `most` records ended: all granted, or a refusal, or no run of `need` pages. */
  ghost predicate CallsMade(kmalloc: Kmalloc, calls: nat, n: nat, most: nat, ok: bool, noRun: bool) {
    if ok then n == calls + most && Granted(kmalloc, calls, n)
    else n <= calls + most && (Refused(kmalloc, calls, n) || (calls <= n && Granted(kmalloc, calls, n) && noRun))
  }

  /** No run of `num` free pages. */
  ghost predicate NoRun(u: seq<bool>, num: nat) { forall i: nat :: !FreeRun(u, i, num) }

  /** `c` holds no more pages than a copy of `v` does. */
  ghost predicate PartialCopy(v: Vma, c: Vma) {
    && c.shared == v.shared
    && (v.shared ==> c.blocks == [])
    && (Loaded(v) && !v.shared ==> |c.blocks| <= 1 && forall i :: 0 <= i < |c.blocks| ==> Pow2(c.blocks[i].order) == Need(v))
    && (!Loaded(v) ==> |c.blocks| <= |v.blocks| && forall i :: 0 <= i < |c.blocks| ==> c.blocks[i].order == 0)
  }

  /** The child's list after some of the areas: at most one copy each, the last perhaps unfinished. */
  ghost predicate PartialCopies(vs: seq<Vma>, cs: seq<Vma>) {
    |cs| <= |vs| && forall j :: 0 <= j < |cs| ==> PartialCopy(vs[j], cs[|cs| - 1 - j])
  }

  /** `ds` is `cs`, perhaps with a copy of `v` in front. */
  ghost predicate Extends(v: Vma, cs: seq<Vma>, ds: seq<Vma>) {
    ds == cs || (|ds| == |cs| + 1 && ds[1..] == cs && PartialCopy(v, ds[0]))
  }

  lemma PartialNext(vs: seq<Vma>, cs: seq<Vma>, ds: seq<Vma>)
    requires |cs| < |vs| && PartialCopies(vs, cs) && Extends(vs[|cs|], cs, ds)
    ensures PartialCopies(vs, ds)
  {
    hide PartialCopy;
    if ds != cs {
      forall j | 0 <= j < |ds| ensures PartialCopy(vs[j], ds[|ds| - 1 - j]) {
        if j < |cs| { assert ds[|ds| - 1 - j] == cs[|cs| - 1 - j]; }
      }
    }
  }

  lemma GoodPrepend(cs: seq<Vma>, c: Vma)
    requires GoodVmas(cs) && GoodBlocks(c.blocks)
    ensures GoodVmas([c] + cs)
  {
    var ds := [c] + cs;
    forall k | 0 <= k < |ds| ensures GoodBlocks(ds[k].blocks) {
      if k > 0 { assert GoodBlocks(cs[k - 1].blocks); }
    }
  }

  /** The branch for a shared area: the same frames, no pages of its own. */
  method CloneShared(m: PageMemory, v: Vma, cs: seq<Vma>, kmalloc: Kmalloc, calls: nat, ghost ram0: Ram,
          ghost used0: set<nat>, ghost tabs: map<nat, Node>, ghost root: nat)
    returns (ok: bool, ds: seq<Vma>, n: nat)
    requires Forking(m, ram0, used0, tabs, cs) && v.shared
    ensures Forking(m, ram0, used0, tabs, ds)
    ensures !ok ==> ds == cs
    ensures CallsMade(kmalloc, calls, n, CallsFor(v), ok, false)
    ensures ok ==> ds == [NewVma(v, v.lma)] + cs && Clone(ram0, m.ram, root, used0, m.Used(), v, ds[0])
  {
    hide OwnedPages, BlocksPages;
    n := calls + 1;
    if !kmalloc(calls) {
      return false, cs, n;
    }
    LedgerPrepend(m.Used(), used0, tabs, cs, NewVma(v, v.lma));
    GoodPrepend(cs, NewVma(v, v.lma));
    return true, [NewVma(v, v.lma)] + cs, n;
  }

  /** The newly created area is the one find_vma finds, if it is not empty. */
  lemma FindsNew(c: Vma, cs: seq<Vma>)
    requires c.start < c.end
    ensures FindVma([c] + cs, c.start, 0) == 0
  {
  }

  /** The pages just taken, given back. */
  method GiveBack(m: PageMemory, page: nat, order: nat, ghost used: set<nat>)
    requires m.Valid() && InPool(page) && PAGE_SIZE * Pow2(order) <= PAGE_POOL_END - page
    requires Pages(page, Pow2(order)) !! used && m.Used() == used + Pages(page, Pow2(order))
    modifies m.usage
    ensures m.Used() == used
  {
    hide Pages;
    Joined(used, Pages(page, Pow2(order)));
    var r := m.FreePages(page, order);
  }

  /** A run of pages for area `v`, a child area loaded there, and its block; on failure the pages are given back. */
  method RecordRun(m: PageMemory, v: Vma, cs: seq<Vma>, kmalloc: Kmalloc, calls: nat, ghost ram0: Ram,
          ghost used0: set<nat>, ghost tabs: map<nat, Node>)
    returns (ok: bool, ds: seq<Vma>, n: nat, page: nat, order: nat)
    requires Forking(m, ram0, used0, tabs, cs) && !v.shared && Loaded(v) && Loadable(v) && v.start < v.end && v.start > 0
    modifies m.usage
    ensures Forking(m, ram0, used0, tabs, ds)
    ensures !ok ==> m.Used() == old(m.Used()) && Extends(v, cs, ds)
    ensures CallsMade(kmalloc, calls, n, CallsFor(v), ok, NoRun(m.usage[..], Need(v)))
    ensures ok ==> InPool(page) && PAGE_SIZE * Pow2(order) <= PAGE_POOL_END - page && VmaPages(v) <= Pow2(order) == Need(v)
    ensures ok ==> Pages(page, Pow2(order)) !! old(m.Used()) && m.Used() == old(m.Used()) + Pages(page, Pow2(order))
    ensures ok ==> ds == [NewVma(v, Pa(page)).(blocks := [PagesBlock(v.start, page, order)])] + cs
  {
    hide OwnedPages, BlocksPages, BlockPages, InPool, Pages, PageAt, GoodVmas, GoodBlocks, ForkLedger, Recorded,
         FindVma, GetOrder, Keeps, CallsMade, NoRun, Extends;
    n := calls;
    ok := false;
    ds := cs;
    ExtendsSelf(v, cs);
    ghost var used1 := m.Used();
    order := GetOrder(v.end - v.start, 0);
    OrderHolds(v.end - v.start);
    page := m.GetFreePages(order);
    RunCalls(kmalloc, calls, m.usage[..], Need(v));
    if page == NULL {
      return;
    }
    Joined(used1, Pages(page, Pow2(order)));
    n := n + 1;
    if !kmalloc(n - 1) {
      GiveBack(m, page, order, used1);
      RunCalls(kmalloc, calls, m.usage[..], Need(v));
      return;
    }
    PoolFrameGood(page);
    ds := [NewVma(v, Pa(page))] + cs;
    NewArea(used1, used0, tabs, v, cs, Pa(page));
    n := n + 1;
    if !kmalloc(n - 1) {
      GiveBack(m, page, order, used1);
      RunCalls(kmalloc, calls, m.usage[..], Need(v));
      return;
    }
    var i := FindVma(ds, v.start, 0);
    var b := PagesBlock(v.start, page, order);
    NewBlock(used1, m.Used(), used0, tabs, v, cs, Pa(page), b);
    ds := Recorded(ds, i, b);
    ok := true;
  }

  lemma ExtendsSelf(v: Vma, cs: seq<Vma>)
    ensures Extends(v, cs, cs)
  {
  }

  /** A new area for a copy of `v`, with no pages yet. */
  lemma NewArea(used: set<nat>, used0: set<nat>, tabs: map<nat, Node>, v: Vma, cs: seq<Vma>, lma: nat)
    requires ForkLedger(used, used0, tabs, cs) && GoodVmas(cs) && v.start < v.end && !v.shared
    ensures var ds := [NewVma(v, lma)] + cs;
            ForkLedger(used, used0, tabs, ds) && GoodVmas(ds) && FindVma(ds, v.start, 0) == 0 && Extends(v, cs, ds)
  {
    var c := NewVma(v, lma);
    LedgerPrepend(used, used0, tabs, cs, c);
    GoodNone(c);
    GoodPrepend(cs, c);
    FindsNew(c, cs);
    assert ([c] + cs)[1..] == cs;
  }

  /** Its first block. */
  lemma NewBlock(used: set<nat>, used': set<nat>, used0: set<nat>, tabs: map<nat, Node>, v: Vma, cs: seq<Vma>, lma: nat,
          b: PagesBlock)
    requires ForkLedger(used, used0, tabs, [NewVma(v, lma)] + cs) && GoodVmas([NewVma(v, lma)] + cs) && !v.shared && GoodBlock(b)
    requires Pages(b.linearAddr, Pow2(b.order)) !! used && used' == used + Pages(b.linearAddr, Pow2(b.order))
    ensures var ds := Recorded([NewVma(v, lma)] + cs, 0, b);
            ds == [NewVma(v, lma).(blocks := [b])] + cs && ForkLedger(used', used0, tabs, ds) && GoodVmas(ds)
  {
    hide ForkLedger, GoodVmas, GoodBlock, Pages;
    var c := NewVma(v, lma);
    LedgerBlock(used, used', used0, tabs, [c] + cs, b);
    GoodRecorded([c] + cs, 0, b);
    RecordedFirst(c, cs, b);
    assert c.blocks + [b] == [b];
  }

  /** The calls made when a run of pages is recorded, for each way it can end. */
  lemma RunCalls(kmalloc: Kmalloc, calls: nat, u: seq<bool>, need: nat)
    ensures (forall i: nat :: !FreeRun(u, i, need)) ==> CallsMade(kmalloc, calls, calls, 2, false, NoRun(u, need))
    ensures !kmalloc(calls) ==> CallsMade(kmalloc, calls, calls + 1, 2, false, NoRun(u, need))
    ensures kmalloc(calls) ==> CallsMade(kmalloc, calls, calls + 2, 2, kmalloc(calls + 1), NoRun(u, need))
  {
    hide FreeRun;
  }

  /** The branch for a private area with a load address: a fresh run of pages, filled from the parent's. */
  method CloneLoaded(m: PageMemory, root: nat, v: Vma, cs: seq<Vma>, kmalloc: Kmalloc, calls: nat,
                     ghost ram0: Ram, ghost used0: set<nat>, ghost tabs: map<nat, Node>, ghost ptabs: map<nat, Node>)
    returns (ok: bool, ds: seq<Vma>, n: nat)
    requires Forking(m, ram0, used0, tabs, cs) && !v.shared && Loaded(v) && Loadable(v) && v.start < v.end && v.start > 0
    requires TreeOk(ram0, root, ptabs) && ptabs.Keys <= used0 && Readable(ram0, root, used0, v)
    modifies m`ram, m.usage
    ensures Forking(m, ram0, used0, tabs, ds) && Keeps(old(m.ram), m.ram, old(m.Used())) && old(m.Used()) <= m.Used()
    ensures ok ==> |ds| == |cs| + 1 && ds[1..] == cs && Clone(ram0, m.ram, root, used0, m.Used(), v, ds[0])
    ensures Extends(v, cs, ds)
    ensures CallsMade(kmalloc, calls, n, CallsFor(v), ok, NoRun(m.usage[..], Need(v)))
  {
    hide OwnedPages, BlocksPages, BlockPages, LeafEntry, Next, InPool, TreeOk, Pages, PageAt, GoodVmas, GoodBlocks,
         ForkLedger, SourcePage, Readable, Keeps;
    ghost var ram1, used1 := m.ram, m.Used();
    LedgerGrows(used1, used0, tabs, cs);
    KeepsSelf(ram1, used1);
    var page, order;
    ok, ds, n, page, order := RecordRun(m, v, cs, kmalloc, calls, ram0, used0, tabs);
    if ok {
      SubPages(page, VmaPages(v), Pow2(order));
      SameTree(ram0, ram1, root, ptabs, used0);
      StillReadable(ram0, ram1, root, ptabs, used0, used1, v);
      CopyArea(m, root, v, page, VmaPages(v), ptabs, used1);
      KeepsTrans(ram0, ram1, m.ram, used0, used1);
      CopiedFrom(ram0, ram1, m.ram, root, ptabs, used0, v, page);
      assert ds[1..] == cs;
    }
  }

  /** The parent's pages can still be read after earlier steps of the fork. */
  lemma StillReadable(ram0: Ram, ram1: Ram, root: nat, ptabs: map<nat, Node>, used0: set<nat>, used1: set<nat>, v: Vma)
    requires TreeOk(ram0, root, ptabs) && ptabs.Keys <= used0 && Keeps(ram0, ram1, used0) && used0 <= used1
    requires Readable(ram0, root, used0, v) && Loaded(v) && !v.shared
    ensures forall k: nat :: k < VmaPages(v) ==> HeldFrame(ram1, SourcePage(ram1, root, v, k), used1)
  {
    hide LeafEntry, Next, InPool, TreeOk;
    SameTables(ram0, ram1, root, ptabs, used0);
    forall k: nat | k < VmaPages(v) ensures HeldFrame(ram1, SourcePage(ram1, root, v, k), used1) {
      assert HeldFrame(ram0, SourcePage(ram0, root, v, k), used0);
    }
  }

  /** What was read during the fork is what was there when it began. */
  lemma CopiedFrom(ram0: Ram, ram1: Ram, ram2: Ram, root: nat, ptabs: map<nat, Node>, used0: set<nat>, v: Vma, page: nat)
    requires TreeOk(ram0, root, ptabs) && ptabs.Keys <= used0 && Keeps(ram0, ram1, used0)
    requires Readable(ram0, root, used0, v) && Loaded(v) && !v.shared
    requires forall k: nat :: k < VmaPages(v) ==> SameBytes(ram1, SourcePage(ram1, root, v, k), ram2, PageAt(page, k), PageBytes(v, k))
    ensures forall k: nat :: k < VmaPages(v) ==> SameBytes(ram0, SourcePage(ram0, root, v, k), ram2, PageAt(page, k), PageBytes(v, k))
  {
    hide LeafEntry, Next, InPool, TreeOk, PageAt, SameWord, PageBytes;
    SameTables(ram0, ram1, root, ptabs, used0);
    forall k: nat | k < VmaPages(v) ensures SameBytes(ram0, SourcePage(ram0, root, v, k), ram2, PageAt(page, k), PageBytes(v, k)) {
      assert HeldFrame(ram0, SourcePage(ram0, root, v, k), used0);
      assert SameBytes(ram1, SourcePage(ram1, root, v, k), ram2, PageAt(page, k), PageBytes(v, k));
    }
  }

  lemma GoodNone(c: Vma)
    requires c.blocks == []
    ensures GoodBlocks(c.blocks)
  {
  }

  lemma RecordedFirst(c: Vma, cs: seq<Vma>, b: PagesBlock)
    ensures Recorded([c] + cs, 0, b) == [c.(blocks := c.blocks + [b])] + cs
    ensures Recorded([c] + cs, 0, b)[1..] == cs
  {
  }

  lemma SubPages(a: nat, j: nat, k: nat)
    requires j <= k
    ensures Pages(a, j) <= Pages(a, k)
  {
  }

  lemma SameTree(ram: Ram, ram': Ram, root: nat, tabs: map<nat, Node>, used: set<nat>)
    requires TreeOk(ram, root, tabs) && tabs.Keys <= used && Keeps(ram, ram', used)
    ensures TreeOk(ram', root, tabs)
  {
    hide Next, InPool, PhyAddr;
    assert forall f :: f in tabs ==> f in ram && ram'[f] == ram[f];
    forall f | f in tabs ensures TableFrame(ram', f) && Placed(ram', root, f, tabs[f]) {
      assert TableFrame(ram, f) && Placed(ram, root, f, tabs[f]);
      match tabs[f] {
        case Dir =>
        case Mid(i) =>
        case Leaf(i, j) =>
          assert At(tabs, Next(Get(ram, root, i)), Mid(i));
      }
    }
  }

  /** What is known of a demand-paged copy after `i` of its pages. */
  ghost predicate DemandCopy(m: PageMemory, v: Vma, cs: seq<Vma>, ds: seq<Vma>, i: nat, ram0: Ram, used0: set<nat>)
    requires i <= |v.blocks|
    reads m, m.usage
  {
    && |ds| == |cs| + 1 && ds[1..] == cs && ds[0] == NewVma(v, NO_LMA).(blocks := ds[0].blocks)
    && ClonedBlocks(ram0, m.ram, used0, m.Used(), v, ds[0], i)
  }

  /** One page of a demand-paged area: a fresh page, its block, and the copy. */
  method CloneDemandPage(m: PageMemory, v: Vma, cs: seq<Vma>, ds0: seq<Vma>, i: nat, kmalloc: Kmalloc, calls: nat,
                         ghost ram0: Ram, ghost used0: set<nat>, ghost tabs: map<nat, Node>)
    returns (ok: bool, ds: seq<Vma>, n: nat)
    requires Forking(m, ram0, used0, tabs, ds0) && !v.shared && !Loaded(v) && v.start < v.end && i < |v.blocks|
    requires v.blocks[i].linearAddr in ram0 && v.blocks[i].linearAddr in used0 && v.blocks[i].userVirtAddr != NULL
    requires DemandCopy(m, v, cs, ds0, i, ram0, used0)
    modifies m`ram, m.usage
    ensures Forking(m, ram0, used0, tabs, ds) && Keeps(old(m.ram), m.ram, old(m.Used())) && old(m.Used()) <= m.Used()
    ensures !ok ==> ds == ds0
    ensures CallsMade(kmalloc, calls, n, 1, ok, NoRun(m.usage[..], 1))
    ensures ok ==> DemandCopy(m, v, cs, ds, i + 1, ram0, used0)
  {
    hide OwnedPages, BlocksPages, BlockPages, LeafEntry, Next, InPool, Pages, GoodVmas, GoodBlocks, ForkLedger,
         Recorded, FindVma;
    ok := false;
    ds := ds0;
    n := calls;
    ghost var ram2, used2 := m.ram, m.Used();
    LedgerGrows(used2, used0, tabs, ds);
    var pb := v.blocks[i];
    var page := m.GetFreePages(0);
    if page == NULL {
      assert Pow2(0) == 1;
      return;
    }
    Joined(used2, Pages(page, Pow2(0)));
    PagesOne(page);
    RoomForOne(page);
    FindsNew(ds[0], cs);
    assert ds == [ds[0]] + cs;
    n := n + 1;
    if !kmalloc(n - 1) {
      GiveBack(m, page, 0, used2);
      return;
    }
    var at := FindVma(ds, v.start, 0);
    var b := PagesBlock(pb.userVirtAddr, page, 0);
    LedgerBlock(used2, m.Used(), used0, tabs, ds, b);
    GoodRecorded(ds, 0, b);
    RecordedFirst(ds[0], cs, b);
    ghost var c0 := ds[0];
    ds := Recorded(ds, at, b);
    PoolPageThere(m, page);
    m.ram := m.ram[page := m.ram[pb.linearAddr]];
    OneMoreBlock(ram0, ram2, m.ram, used0, used2, m.Used(), v, c0, ds[0], i, page);
    KeepsTrans(ram0, ram2, m.ram, used0, used2);
    ok := true;
  }

  /** The branch for a demand-paged area: one fresh page for every page the parent has. */
  method CloneDemand(m: PageMemory, v: Vma, cs: seq<Vma>, kmalloc: Kmalloc, calls: nat,
                     ghost ram0: Ram, ghost used0: set<nat>, ghost tabs: map<nat, Node>, ghost root: nat)
    returns (ok: bool, ds: seq<Vma>, n: nat)
    requires Forking(m, ram0, used0, tabs, cs) && !v.shared && !Loaded(v)
    requires v.blocks != [] ==> v.start < v.end
    requires Readable(ram0, root, used0, v) && forall i :: 0 <= i < |v.blocks| ==> v.blocks[i].userVirtAddr != NULL
    modifies m`ram, m.usage
    ensures Forking(m, ram0, used0, tabs, ds) && Keeps(old(m.ram), m.ram, old(m.Used())) && old(m.Used()) <= m.Used()
    ensures ok ==> |ds| == |cs| + 1 && ds[1..] == cs && Clone(ram0, m.ram, root, used0, m.Used(), v, ds[0])
    ensures Extends(v, cs, ds)
    ensures CallsMade(kmalloc, calls, n, CallsFor(v), ok, NoRun(m.usage[..], Need(v)))
  {
    hide OwnedPages, BlocksPages, BlockPages, LeafEntry, Next, InPool, Pages, GoodVmas, GoodBlocks, ForkLedger, Keeps,
         SameContents, NoRun, Granted;
    n := calls + 1;
    ok := false;
    ds := cs;
    ghost var ram1, used1 := m.ram, m.Used();
    KeepsSelf(ram1, used1);
    OneCall(kmalloc, calls);
    if !kmalloc(calls) {
      return;
    }
    var c := NewVma(v, NO_LMA);
    LedgerPrepend(used1, used0, tabs, cs, c);
    GoodNone(c);
    GoodPrepend(cs, c);
    ds := [c] + cs;
    for i := 0 to |v.blocks|
      invariant Forking(m, ram0, used0, tabs, ds) && Keeps(ram1, m.ram, used1) && used1 <= m.Used()
      invariant DemandCopy(m, v, cs, ds, i, ram0, used0)
      invariant n == calls + 1 + i && Granted(kmalloc, calls, n)
    {
      ghost var ram2, used2 := m.ram, m.Used();
      ghost var n0 := n;
      ok, ds, n := CloneDemandPage(m, v, cs, ds, i, kmalloc, n, ram0, used0, tabs);
      CallsJoin(kmalloc, calls, n0, n, 1, CallsFor(v), ok, NoRun(m.usage[..], 1));
      KeepsTrans(ram1, ram2, m.ram, used1, used2);
      if !ok {
        return;
      }
    }
    ok := true;
  }

  lemma OneCall(kmalloc: Kmalloc, calls: nat)
    ensures if kmalloc(calls) then Granted(kmalloc, calls, calls + 1) else Refused(kmalloc, calls, calls + 1)
  {
  }

  /** Granted calls, then some more. */
  lemma CallsJoin(kmalloc: Kmalloc, calls: nat, n0: nat, n: nat, more: nat, most: nat, ok: bool, noRun: bool)
    requires calls <= n0 && Granted(kmalloc, calls, n0) && CallsMade(kmalloc, n0, n, more, ok, noRun) && n0 + more <= calls + most
    ensures ok ==> n == n0 + more && Granted(kmalloc, calls, n)
    ensures !ok ==> CallsMade(kmalloc, calls, n, most, ok, noRun)
  {
  }

  lemma OneMoreBlock(ram0: Ram, ram1: Ram, ram2: Ram, used0: set<nat>, used1: set<nat>, used2: set<nat>, v: Vma, c1: Vma,
          c2: Vma, n: nat, page: nat)
    requires n < |v.blocks| && ClonedBlocks(ram0, ram1, used0, used1, v, c1, n)
    requires c2.blocks == c1.blocks + [PagesBlock(v.blocks[n].userVirtAddr, page, 0)]
    requires used0 <= used1 && used2 == used1 + {page} && page !in used1 && page in ram1
    requires v.blocks[n].linearAddr in ram0 && v.blocks[n].linearAddr in used0 && Keeps(ram0, ram1, used0)
    requires ram2 == ram1[page := ram1[v.blocks[n].linearAddr]]
    ensures ClonedBlocks(ram0, ram2, used0, used2, v, c2, n + 1)
    ensures InPool(page) ==> Keeps(ram1, ram2, used1)
  {
  }

  /** Copies one parent area into the child, whichever kind it is. */
  method CloneArea(m: PageMemory, root: nat, v: Vma, cs: seq<Vma>, kmalloc: Kmalloc, calls: nat,
                   ghost ram0: Ram, ghost used0: set<nat>, ghost tabs: map<nat, Node>, ghost ptabs: map<nat, Node>)
    returns (ok: bool, ds: seq<Vma>, n: nat)
    requires Forking(m, ram0, used0, tabs, cs)
    requires TreeOk(ram0, root, ptabs) && ptabs.Keys <= used0 && Readable(ram0, root, used0, v)
    requires Loadable(v) && (Loaded(v) ==> v.start > 0) && (v.start < v.end || (!Loaded(v) && v.blocks == []))
    requires !Loaded(v) ==> !v.shared && forall i :: 0 <= i < |v.blocks| ==> v.blocks[i].userVirtAddr != NULL
    modifies m`ram, m.usage
    ensures Forking(m, ram0, used0, tabs, ds) && Keeps(old(m.ram), m.ram, old(m.Used())) && old(m.Used()) <= m.Used()
    ensures ok ==> |ds| == |cs| + 1 && ds[1..] == cs && Clone(ram0, m.ram, root, used0, m.Used(), v, ds[0])
    ensures Extends(v, cs, ds)
    ensures CallsMade(kmalloc, calls, n, CallsFor(v), ok, NoRun(m.usage[..], Need(v)))
  {
    if v.shared {
      ok, ds, n := CloneShared(m, v, cs, kmalloc, calls, ram0, used0, tabs, root);
    } else if v.lma != NO_LMA {
      ok, ds, n := CloneLoaded(m, root, v, cs, kmalloc, calls, ram0, used0, tabs, ptabs);
    } else {
      ok, ds, n := CloneDemand(m, v, cs, kmalloc, calls, ram0, used0, tabs, root);
    }
  }

  // ---------------------------------------------------------------------------------------
  // The whole call

  datatype ForkOutcome = Forked | Failed | Hung

  /** Parent area `j` and its copy: setup_vma prepends, so the child's list is in reverse order. */
  ghost predicate Clones(ram0: Ram, ram: Ram, root: nat, used0: set<nat>, used: set<nat>, vs: seq<Vma>, cs: seq<Vma>, n: nat)
    requires n <= |vs|
  {
    |cs| == n && forall j :: 0 <= j < n ==> Clone(ram0, ram, root, used0, used, vs[j], cs[n - 1 - j])
  }

  lemma ClonesNext(ram0: Ram, ram1: Ram, ram2: Ram, root: nat, used0: set<nat>, used1: set<nat>, used2: set<nat>,
          vs: seq<Vma>, cs: seq<Vma>, ds: seq<Vma>, n: nat)
    requires n < |vs| && Clones(ram0, ram1, root, used0, used1, vs, cs, n)
    requires Keeps(ram1, ram2, used1) && used1 <= used2
    requires |ds| == |cs| + 1 && ds[1..] == cs && Clone(ram0, ram2, root, used0, used2, vs[n], ds[0])
    ensures Clones(ram0, ram2, root, used0, used2, vs, ds, n + 1)
  {
    hide Clone, Keeps;
    forall j | 0 <= j < n + 1 ensures Clone(ram0, ram2, root, used0, used2, vs[j], ds[n - j]) {
      if j < n {
        assert ds[n - j] == cs[n - 1 - j];
        CloneKept(ram0, ram1, ram2, root, used0, used1, used2, vs[j], cs[n - 1 - j]);
      }
    }
  }

  lemma ClonesKept(ram0: Ram, ram1: Ram, ram2: Ram, root: nat, used0: set<nat>, used1: set<nat>, used2: set<nat>,
          vs: seq<Vma>, cs: seq<Vma>)
    requires Clones(ram0, ram1, root, used0, used1, vs, cs, |vs|) && Keeps(ram1, ram2, used1) && used1 <= used2
    ensures Clones(ram0, ram2, root, used0, used2, vs, cs, |vs|)
  {
    hide Clone, Keeps;
    var n := |vs|;
    forall j | 0 <= j < n ensures Clone(ram0, ram2, root, used0, used2, vs[j], cs[n - 1 - j]) {
      CloneKept(ram0, ram1, ram2, root, used0, used1, used2, vs[j], cs[n - 1 - j]);
    }
  }

  /** The child's areas can be mapped: copies of loaded areas start on a frame of their own run. */
  lemma CloneLoadable(ram0: Ram, ram: Ram, root: nat, used0: set<nat>, used: set<nat>, v: Vma, c: Vma)
    requires Loadable(v) && (v.shared ==> Loaded(v)) && Clone(ram0, ram, root, used0, used, v, c)
    ensures Loadable(c)
  {
    hide LeafEntry, Next, SameBytes, Pages;
    if !v.shared && Loaded(v) {
      var b := c.blocks[0];
      PagesCover(v.end - v.start);
      assert PAGE_SIZE * VmaPages(v) <= PAGE_SIZE * Pow2(b.order);
    }
  }

  lemma PagesCover(size: nat)
    ensures size <= PAGE_SIZE * PageCount(size)
  {
  }

  lemma ClonesLoadable(ram0: Ram, ram: Ram, root: nat, used0: set<nat>, used: set<nat>, vs: seq<Vma>, cs: seq<Vma>)
    requires Forkable(vs) && Clones(ram0, ram, root, used0, used, vs, cs, |vs|)
    ensures AllLoadable(cs)
  {
    var n := |vs|;
    forall i | 0 <= i < n ensures Loadable(cs[i]) && cs[i].start == vs[n - 1 - i].start && cs[i].end == vs[n - 1 - i].end {
      CloneLoadable(ram0, ram, root, used0, used, vs[n - 1 - i], cs[n - 1 - (n - 1 - i)]);
    }
    hide Clone, Clones;
    forall i, j | 0 <= i < j < n ensures Disjoint(cs[i], cs[j]) {
      assert Disjoint(vs[n - 1 - j], vs[n - 1 - i]);
    }
  }

  /** After rollback the usage map is the old one. */
  lemma RolledBack(u: multiset<nat>, used: set<nat>, used0: set<nat>, tabs: map<nat, Node>, cs: seq<Vma>, used2: set<nat>)
    requires ForkLedger(used, used0, tabs, cs)
    requires multiset(used2) == multiset(used) - (OwnedPages(cs) + multiset(tabs.Keys))
    ensures used2 == used0
  {
    hide OwnedPages;
    var o := OwnedPages(cs);
    forall f ensures f in used2 <==> f in used0 {
      assert multiset(used)[f] == (multiset(used0) + multiset(tabs.Keys) + o)[f];
      assert f in used2 <==> multiset(used2)[f] > 0;
      assert f in used0 <==> multiset(used0)[f] > 0;
    }
  }

  lemma EmptyLedger(used: set<nat>)
    ensures ForkLedger(used, used, map[], []) && GoodVmas([])
  {
  }

  lemma DirLedger(used: set<nat>, used0: set<nat>, pgDir: nat)
    requires pgDir !in used0 && used == used0 + {pgDir}
    ensures ForkLedger(used, used0, map[pgDir := Dir], []) && GoodVmas([])
  {
    var tabs := map[pgDir := Dir];
    assert tabs.Keys == {pgDir};
    assert multiset(used) == multiset(used0) + multiset{pgDir};
  }

  /** Building the child's page table adds its tables to the account. */
  lemma TablesLedger(used1: set<nat>, used2: set<nat>, used0: set<nat>, t1: map<nat, Node>, t2: map<nat, Node>,
          cs: seq<Vma>)
    requires ForkLedger(used1, used0, t1, cs) && t1.Keys <= t2.Keys
    requires used2 == used1 + (t2.Keys - t1.Keys) && (t2.Keys - t1.Keys) !! used1
    ensures ForkLedger(used2, used0, t2, cs)
  {
    hide OwnedPages;
    var n := t2.Keys - t1.Keys;
    assert t2.Keys == t1.Keys + n;
    assert multiset(t2.Keys) == multiset(t1.Keys) + multiset(n);
    assert multiset(used2) == multiset(used1) + multiset(n);
    var o := OwnedPages(cs);
    assert multiset(used0) + multiset(t1.Keys) + o + multiset(n) == multiset(used0) + (multiset(t1.Keys) + multiset(n)) + o;
  }

  lemma TablesKeep(ram: Ram, ram': Ram, used: set<nat>, used': set<nat>, tabs: map<nat, Node>, tabs': map<nat, Node>,
          root: nat)
    requires OnlyTables(ram, ram', used, used', tabs, tabs') && TreeOk(ram', root, tabs') && tabs.Keys <= used
    ensures Keeps(ram, ram', used - tabs.Keys)
  {
    forall f | f in tabs' ensures InPool(f) { assert TableFrame(ram', f); }
  }

  lemma ZeroedKeeps(ram: Ram, ram': Ram, used: set<nat>, page: nat)
    requires ram'.Keys == ram.Keys && InPool(page) && page !in used
    requires forall f :: f in ram && f != page ==> ram'[f] == ram[f]
    ensures Keeps(ram, ram', used)
  {
  }

  /** fail_setup_vma: exit_mm on what exists of the child. */
  method Rollback(m: PageMemory, cs: seq<Vma>, pgDir: nat, ghost tabs: map<nat, Node>, ghost used0: set<nat>)
    requires m.Valid() && GoodVmas(cs) && ForkLedger(m.Used(), used0, tabs, cs)
    requires if pgDir == NULL then tabs == map[] else TreeOk(m.ram, pgDir, tabs)
    modifies m.usage
    ensures m.Used() == used0
  {
    hide TreeOk, OwnedPages;
    ghost var u := m.Used();
    LedgerGrows(u, used0, tabs, cs);
    assert OwnedPages(cs) + multiset(tabs.Keys) <= multiset(u);
    var r := ExitMm(m, cs, pgDir, tabs);
    RolledBack(multiset(u), u, used0, tabs, cs, m.Used());
  }

  lemma NoCopies(vs: seq<Vma>)
    ensures PartialCopies(vs, [])
  {
  }

  lemma {:induction false} CallsMono(vs: seq<Vma>, j: nat, n: nat)
    requires j <= n <= |vs|
    ensures CallsForAll(vs, j) <= CallsForAll(vs, n)
    decreases n
  {
    if j < n { CallsMono(vs, j, n - 1); }
  }

  /** Some area of `vs` needs a run of pages that is not there. */
  ghost predicate NoRunFor(u: seq<bool>, vs: seq<Vma>) { exists j :: 0 <= j < |vs| && NoRun(u, Need(vs[j])) }

  /** The copying loop of sys_fork: every parent area in turn, until one fails. */
  method CloneAreas(m: PageMemory, root: nat, vs: seq<Vma>, kmalloc: Kmalloc, calls: nat, ghost ram0: Ram,
          ghost used0: set<nat>, ghost tabs: map<nat, Node>, ghost ptabs: map<nat, Node>)
    returns (ok: bool, cs: seq<Vma>, n: nat)
    requires Forking(m, ram0, used0, tabs, [])
    requires TreeOk(ram0, root, ptabs) && ptabs.Keys <= used0
    requires Forkable(vs) && forall j :: 0 <= j < |vs| ==> Readable(ram0, root, used0, vs[j])
    modifies m`ram, m.usage
    ensures Forking(m, ram0, used0, tabs, cs)
    ensures Keeps(old(m.ram), m.ram, old(m.Used()))
    ensures ok ==> Clones(ram0, m.ram, root, used0, m.Used(), vs, cs, |vs|)
    ensures PartialCopies(vs, cs)
    ensures CallsMade(kmalloc, calls, n, CallsForAll(vs, |vs|), ok, NoRunFor(m.usage[..], vs))
  {
    hide LeafEntry, TreeOk, Readable, Clone, ForkLedger, GoodVmas, Keeps, Need, NoRun, PartialCopies, Extends, Granted,
         CallsFor;
    NoCopies(vs);
    NoCalls(kmalloc, calls);
    cs := [];
    ok := true;
    n := calls;
    ghost var ram1, used1 := m.ram, m.Used();
    KeepsSelf(ram1, used1);
    for j := 0 to |vs|
      invariant Forking(m, ram0, used0, tabs, cs) && ok
      invariant Keeps(ram1, m.ram, used1) && used1 <= m.Used()
      invariant Clones(ram0, m.ram, root, used0, m.Used(), vs, cs, j) && PartialCopies(vs, cs)
      invariant n == calls + CallsForAll(vs, j) && Granted(kmalloc, calls, n)
    {
      ghost var ram2, used2, cs2, n2 := m.ram, m.Used(), cs, n;
      ok, cs, n := CloneArea(m, root, vs[j], cs, kmalloc, n, ram0, used0, tabs, ptabs);
      CallsMono(vs, j + 1, |vs|);
      CallsJoin(kmalloc, calls, n2, n, CallsFor(vs[j]), CallsForAll(vs, |vs|), ok, NoRun(m.usage[..], Need(vs[j])));
      KeepsTrans(ram1, ram2, m.ram, used1, used2);
      PartialNext(vs, cs2, cs);
      if !ok {
        return;
      }
      ClonesNext(ram0, ram2, m.ram, root, used0, used2, m.Used(), vs, cs2, cs, j);
    }
  }

  lemma NoCalls(kmalloc: Kmalloc, calls: nat)
    ensures Granted(kmalloc, calls, calls)
  {
  }

  /**
   * The moment a fork gave up for want of pages: besides the pages in use before, `u` holds at most the
   * child's directory and (partial) copies of the parent's areas, and some request finds no run in it.
   */
  ghost predicate OutOfPages(u: seq<bool>, used0: set<nat>, vs: seq<Vma>) {
    && (exists tabs: map<nat, Node>, cs: seq<Vma> :: ForkLedger(UsedSet(u), used0, tabs, cs) && |tabs| <= 1 && PartialCopies(vs, cs))
    && (NoRun(u, 1) || NoRunFor(u, vs))
  }

  /** The reasons for which a fork may fail. */
  ghost predicate MayFail(slotOk: bool, kmalloc: Kmalloc, used0: set<nat>, vs: seq<Vma>) {
    || !slotOk
    || (exists calls: nat :: calls <= 1 + CallsForAll(vs, |vs|) && Refused(kmalloc, 0, calls))
    || (exists full :: OutOfPages(full, used0, vs))
  }

  lemma NoDirectory(u: seq<bool>, used0: set<nat>, vs: seq<Vma>)
    requires used0 == UsedSet(u) && forall i: nat :: !FreeRun(u, i, Pow2(0))
    ensures OutOfPages(u, used0, vs)
  {
    hide UsedSet, ForkLedger, PartialCopies, FreeRun;
    EmptyLedger(used0);
    NoCopies(vs);
    var tabs: map<nat, Node> := map[];
    assert ForkLedger(UsedSet(u), used0, tabs, []) && |tabs| <= 1 && PartialCopies(vs, []);
    assert Pow2(0) == 1;
  }

  lemma IsOutOfPages(u: seq<bool>, used0: set<nat>, pgDir: nat, vs: seq<Vma>, cs: seq<Vma>)
    requires ForkLedger(UsedSet(u), used0, map[pgDir := Dir], cs) && PartialCopies(vs, cs)
    ensures NoRunFor(u, vs) ==> OutOfPages(u, used0, vs)
  {
    hide UsedSet, ForkLedger, PartialCopies, NoRun, Need, NoRunFor;
    var tabs := map[pgDir := Dir];
    assert tabs.Keys == {pgDir};
    assert |tabs| == |tabs.Keys| == 1;
  }

  /**
   * sys_fork: `slotOk` says whether a task slot was free, `kmalloc` which allocations succeed. A failure
   * anywhere leaves the usage map as it was; success gives the child a copy of every parent area, and
   * a page table that maps exactly the copies with a load address. Hung: the pool ran dry while the
   * child's tables were built.
   */
  method SysFork(m: PageMemory, parent: Task, slotOk: bool, kmalloc: Kmalloc)
    returns (r: ForkOutcome, child: Task, ghost full: seq<bool>, ghost calls: nat)
    requires m.Valid() && TreeOk(m.ram, parent.pgDir, parent.tabs) && parent.tabs.Keys <= m.Used()
    requires Forkable(parent.mmap) && forall j :: 0 <= j < |parent.mmap| ==> Readable(m.ram, parent.pgDir, m.Used(), parent.mmap[j])
    modifies m`ram, m.usage
    ensures m.Valid() && fresh(child)
    ensures r == Failed ==> m.usage[..] == old(m.usage[..])
    ensures r != Hung ==> Keeps(old(m.ram), m.ram, old(m.Used()))
    ensures r == Forked ==>
              && child.startBrk == parent.startBrk && child.brk == parent.brk && child.lost == []
              && Clones(old(m.ram), m.ram, parent.pgDir, old(m.Used()), m.Used(), parent.mmap, child.mmap, |parent.mmap|)
              && TreeOk(m.ram, child.pgDir, child.tabs) && child.pgDir != NULL
              && AllLoadable(child.mmap) && MappedFirst(m.ram, child.pgDir, child.mmap, |child.mmap|)
              && ForkLedger(m.Used(), old(m.Used()), child.tabs, child.mmap) && GoodVmas(child.mmap)
              && child.stale == HeapList(child.mmap, child.startBrk) && child.leaked == []
    ensures r != Failed ==> slotOk && calls == 1 + CallsForAll(parent.mmap, |parent.mmap|) && Granted(kmalloc, 0, calls)
    ensures r == Failed ==> calls <= 1 + CallsForAll(parent.mmap, |parent.mmap|)
    ensures r == Failed ==>
              || !slotOk || Refused(kmalloc, 0, calls)
              || (Granted(kmalloc, 0, calls) && OutOfPages(full, old(m.Used()), parent.mmap))
    ensures r == Hung ==> PoolExhausted(m.usage[..])
  {
    hide LeafEntry, TreeOk, Readable, Clone, Clones, ForkLedger, GoodVmas, Keeps, MappedFirst, OnlyTables, Forkable,
         InPool, OwnedPages, NoRun, Need, PartialCopies, OutOfPages, PoolExhausted, HeapList, NoRunFor;
    ghost var ram0, used0, u0 := m.ram, m.Used(), m.usage[..];
    full := u0;
    child := new Task(NULL, [], 0, 0, map[], []);
    r := Failed;
    calls := if slotOk then 1 else 0;
    KeepsSelf(ram0, used0);
    EmptyLedger(used0);
    if !slotOk || !kmalloc(0) {
      return;
    }
    var pgDir := m.GetZeroedPages(0);
    if pgDir == NULL {
      NoDirectory(u0, used0, parent.mmap);
      Rollback(m, [], NULL, map[], used0);
      UsedInjective(m.usage[..], u0);
      return;
    }
    PagesOne(pgDir);
    ZeroedKeeps(ram0, m.ram, used0, pgDir);
    DirLedger(m.Used(), used0, pgDir);
    ghost var tabs := map[pgDir := Dir];
    FreshTree(m.ram, pgDir);
    ghost var ram1, used1 := m.ram, m.Used();
    LedgerGrows(used1, used0, tabs, []);
    var ok, cs, n := CloneAreas(m, parent.pgDir, parent.mmap, kmalloc, 1, ram0, used0, tabs, parent.tabs);
    SameTree(ram1, m.ram, pgDir, tabs, used1);
    calls := n;
    if !ok {
      full := m.usage[..];
      IsOutOfPages(full, used0, pgDir, parent.mmap, cs);
      Rollback(m, cs, pgDir, tabs, used0);
      UsedInjective(m.usage[..], u0);
      return;
    }
    SameTables(ram1, m.ram, pgDir, tabs, used1);
    ghost var ram2, used2 := m.ram, m.Used();
    LedgerGrows(used2, used0, tabs, cs);
    ClonesLoadable(ram0, ram2, parent.pgDir, used0, used2, parent.mmap, cs);
    var mapped;
    ghost var tabs2;
    mapped, tabs2 := SetupUserPageMappings(m, pgDir, cs, tabs);
    if !mapped {
      return Hung, child, full, calls;
    }
    Finished(ram0, ram2, m.ram, parent.pgDir, pgDir, used0, used2, m.Used(), tabs, tabs2, parent.mmap, cs);
    child := new Task(pgDir, cs, parent.startBrk, parent.brk, tabs2, HeapList(cs, parent.startBrk));
    return Forked, child, full, calls;
  }

  /** Building the child's page table leaves every copy and every frame of the parent alone. */
  lemma Finished(ram0: Ram, ram2: Ram, ram3: Ram, root: nat, pgDir: nat, used0: set<nat>, used2: set<nat>, used3: set<nat>,
                 tabs: map<nat, Node>, tabs2: map<nat, Node>, vs: seq<Vma>, cs: seq<Vma>)
    requires Keeps(ram0, ram2, used0) && Clones(ram0, ram2, root, used0, used2, vs, cs, |vs|)
    requires ForkLedger(used2, used0, tabs, cs) && OnlyTables(ram2, ram3, used2, used3, tabs, tabs2) && TreeOk(ram3, pgDir, tabs2)
    ensures Keeps(ram0, ram3, used0) && Clones(ram0, ram3, root, used0, used3, vs, cs, |vs|)
    ensures ForkLedger(used3, used0, tabs2, cs)
  {
    hide LeafEntry, TreeOk, Clones, OwnedPages;
    LedgerGrows(used2, used0, tabs, cs);
    TablesKeep(ram2, ram3, used2, used3, tabs, tabs2, pgDir);
    TablesLedger(used2, used3, used0, tabs, tabs2, cs);
    KeepsTrans(ram0, ram2, ram3, used0, used2 - tabs.Keys);
    ClonesAvoid(ram0, ram2, root, used0, used2, tabs, vs, cs);
    ClonesKept(ram0, ram2, ram3, root, used0, used2 - tabs.Keys, used3, vs, cs);
  }

  /** The pages recorded for a demand-paged area: each has a copy, recorded for the same address in the child. */
  lemma CopiedPages(ram0: Ram, ram: Ram, root: nat, used0: set<nat>, used: set<nat>, vs: seq<Vma>, cs: seq<Vma>, j: nat)
    requires Clones(ram0, ram, root, used0, used, vs, cs, |vs|) && j < |vs| && !vs[j].shared && vs[j].lma == NO_LMA
    ensures var bs, ds := vs[j].blocks, cs[|vs| - 1 - j].blocks;
            && |ds| == |bs|
            && forall i :: 0 <= i < |bs| ==>
                 && ds[i].userVirtAddr == bs[i].userVirtAddr && ds[i].order == 0
                 && ds[i].linearAddr !in used0 && ds[i].linearAddr in ram && bs[i].linearAddr in ram0
                 && ram[ds[i].linearAddr] == ram0[bs[i].linearAddr]
  {
    assert Clone(ram0, ram, root, used0, used, vs[j], cs[|vs| - 1 - j]);
  }

  lemma {:induction false} OwnedContains(cs: seq<Vma>, i: nat, b: PagesBlock)
    requires i < |cs| && !cs[i].shared && b in cs[i].blocks
    ensures BlockPages(b) <= OwnedPages(cs)
  {
    hide BlockPages, BlocksPages;
    SubBlocks(cs[i].blocks, b);
    OwnedUpdate(cs, i, cs[i].(blocks := []));
    NoBlocks();
    PartOf(OwnedPages(cs), OwnedPages(cs[i := cs[i].(blocks := [])]), BlocksPages(cs[i].blocks));
  }

  /** Pages of the child's blocks are never frames of its page table. */
  lemma BlockAvoidsTables(used: set<nat>, used0: set<nat>, tabs: map<nat, Node>, cs: seq<Vma>, i: nat, b: PagesBlock)
    requires ForkLedger(used, used0, tabs, cs) && i < |cs| && !cs[i].shared && b in cs[i].blocks
    ensures Pages(b.linearAddr, Pow2(b.order)) !! tabs.Keys
  {
    hide OwnedPages, Pages;
    OwnedContains(cs, i, b);
    var o, ps := OwnedPages(cs), Pages(b.linearAddr, Pow2(b.order));
    forall f | f in ps ensures f !in tabs {
      assert multiset(ps)[f] <= o[f];
      assert multiset(used)[f] == (multiset(used0) + multiset(tabs.Keys) + o)[f];
      assert f in tabs.Keys <==> multiset(tabs.Keys)[f] > 0;
    }
  }

  lemma ClonesAvoid(ram0: Ram, ram: Ram, root: nat, used0: set<nat>, used: set<nat>, tabs: map<nat, Node>, vs: seq<Vma>,
          cs: seq<Vma>)
    requires Clones(ram0, ram, root, used0, used, vs, cs, |vs|) && ForkLedger(used, used0, tabs, cs)
    ensures Clones(ram0, ram, root, used0, used - tabs.Keys, vs, cs, |vs|)
  {
    hide LeafEntry, OwnedPages, ForkLedger, SameContents, SameBytes, SourcePage;
    var n := |vs|;
    forall j | 0 <= j < n ensures Clone(ram0, ram, root, used0, used - tabs.Keys, vs[j], cs[n - 1 - j]) {
      var c := cs[n - 1 - j];
      assert Clone(ram0, ram, root, used0, used, vs[j], c);
      if !c.shared {
        forall i | 0 <= i < |c.blocks| ensures Pages(c.blocks[i].linearAddr, Pow2(c.blocks[i].order)) !! tabs.Keys {
          BlockAvoidsTables(used, used0, tabs, cs, n - 1 - j, c.blocks[i]);
        }
        OnePages(c.blocks);
      }
    }
  }

  lemma OnePages(bs: seq<PagesBlock>)
    ensures forall i :: 0 <= i < |bs| && bs[i].order == 0 ==> bs[i].linearAddr in Pages(bs[i].linearAddr, Pow2(bs[i].order))
  {
    forall i | 0 <= i < |bs| && bs[i].order == 0 ensures bs[i].linearAddr in Pages(bs[i].linearAddr, Pow2(bs[i].order)) {
      PagesOne(bs[i].linearAddr);
    }
  }

  /** Page `k` of a loaded area, read through the child's own page table. */
  lemma ChildPage(ram0: Ram, ram: Ram, root: nat, pgDir: nat, used0: set<nat>, used: set<nat>, vs: seq<Vma>,
          cs: seq<Vma>, j: nat, k: nat)
    requires Forkable(vs) && j < |vs| && Clones(ram0, ram, root, used0, used, vs, cs, |vs|)
    requires AllLoadable(cs) && MappedFirst(ram, pgDir, cs, |cs|)
    requires Loaded(vs[j]) && k < VmaPages(vs[j])
    ensures var f := Next(LeafEntry(ram, pgDir, UserPage(vs[j], k)));
            if vs[j].shared then f == Va(LoadPage(vs[j], k)) && (MappedTo(ram0, root, vs[j]) ==> f == SourcePage(ram0, root, vs[j], k))
            else f !in used0 && InPool(f) && SameBytes(ram0, SourcePage(ram0, root, vs[j], k), ram, f, PageBytes(vs[j], k))
  {
    hide LeafEntry, PhyAddr, Entry, Pages, PageAt, InLoaded, SameBytes, PageBytes;
    var i := |vs| - 1 - j;
    var v, c := vs[j], cs[i];
    assert Clone(ram0, ram, root, used0, used, v, c);
    assert Loadable(c) && Loaded(c) by { if !v.shared { PoolFrameGood(c.blocks[0].linearAddr); LoadedAddr(c.blocks[0].linearAddr); } }
    assert MappedTo(ram, pgDir, c);
    LoadPageGood(c, k);
    EntryPhyAddr(LoadPage(c, k), AttrsOf(c));
    if !v.shared {
      var a := c.blocks[0].linearAddr;
      PageInBlock(a, Pow2(c.blocks[0].order), k);
      PageInPool(a, Pow2(c.blocks[0].order), k);
      PaPage(a, k);
    } else if MappedTo(ram0, root, v) {
      MappedReads(ram0, root, v, k);
    }
  }

  /** A byte of the part of a word that was copied. */
  lemma CopiedByte(x: nat, y: nat, w: nat, n: nat, b: nat)
    requires SameWord(x, y, w, n) && b < 8 && 8 * w + b < n
    ensures x / Pow256(b) % 256 == y / Pow256(b) % 256
  {
    if 8 * (w + 1) > n { SameByte(x, y, n - 8 * w, b); }
  }

  /**
   * What the child sees at address `a` of a loaded area through its own page table. In a shared area it is the frame
   * the area is loaded at, which is the one the parent reads if its area is mapped. In a private area it is a
   * frame that was free before the fork, and the byte there is the byte the parent read at `a`. The low bits of
   * the entry allow stores exactly if the area is writable.
   */
  lemma ChildReads(ram0: Ram, ram: Ram, root: nat, pgDir: nat, used0: set<nat>, used: set<nat>, vs: seq<Vma>, cs: seq<Vma>, j: nat, a: nat)
    requires Forkable(vs) && j < |vs| && Clones(ram0, ram, root, used0, used, vs, cs, |vs|)
    requires AllLoadable(cs) && MappedFirst(ram, pgDir, cs, |cs|)
    requires Loaded(vs[j]) && vs[j].start <= a < vs[j].end
    ensures LeafEntry(ram, pgDir, a) % 0x1000 == if vs[j].write then 0xF53 else 0xFD3
    ensures var v, f, f0 := vs[j], Next(LeafEntry(ram, pgDir, a)), Next(LeafEntry(ram0, root, a));
            if v.shared then
              && f == v.lma + (a - v.start) / 0x1000 * 0x1000 + 0xFFFF_FFC0_0000_0000
              && (MappedTo(ram0, root, v) ==> f == f0)
            else
              && f !in used0 && InPool(f) && f in ram && f0 in ram0 && |ram[f]| == 512 && |ram0[f0]| == 512
              && ram[f][a % 4096 / 8] / Pow256(a % 8) % 256 == ram0[f0][a % 4096 / 8] / Pow256(a % 8) % 256
  {
    hide LeafEntry, Next, Entry, Clone, Pages, MappedTo, SameWord, InPool;
    var v, k := vs[j], (a - vs[j].start) / PAGE_SIZE;
    assert Loadable(v);
    PageInArea(v.start, v.end, a);
    LoadPageGood(v, k);
    SamePageSameIndices(a, UserPage(v, k));
    SamePageEntry(ram, pgDir, a, UserPage(v, k));
    SamePageEntry(ram0, root, a, UserPage(v, k));
    ChildPage(ram0, ram, root, pgDir, used0, used, vs, cs, j, k);
    ChildEntry(ram0, ram, root, pgDir, used0, used, vs, cs, j, a);
    if !v.shared {
      var f, f0, w := Next(LeafEntry(ram, pgDir, a)), Next(LeafEntry(ram0, root, a)), a % 4096 / 8;
      InCopy(v, a);
      assert SameWord(ram[f][w], ram0[f0][w], w, PageBytes(v, k));
      CopiedByte(ram[f][w], ram0[f0][w], w, PageBytes(v, k), a % 8);
    }
  }

  /** Every byte of the area is among those copied with its page. */
  lemma InCopy(v: Vma, a: nat)
    requires v.start % PAGE_SIZE == 0 && v.start <= a < v.end
    ensures 8 * (a % 4096 / 8) + a % 8 < PageBytes(v, (a - v.start) / PAGE_SIZE) && a % 4096 / 8 < 512
  {
    var k := (a - v.start) / PAGE_SIZE;
    SplitAddress(v.start / PAGE_SIZE, k, (a - v.start) % PAGE_SIZE, a);
    assert a - v.start == PAGE_SIZE * k + a % 4096;
  }

  lemma SplitAddress(p: nat, k: nat, off: nat, a: nat)
    requires off < PAGE_SIZE && a == PAGE_SIZE * p + (PAGE_SIZE * k + off)
    ensures a % 4096 == off && 8 * (off / 8) + a % 8 == off && off / 8 < 512
  {
    var q := p + k;
    assert PAGE_SIZE * p + PAGE_SIZE * k == q * 4096;
    DivUnique(a, q, off, 4096);
    assert a == (512 * q + off / 8) * 8 + off % 8;
    DivUnique(a, 512 * q + off / 8, off % 8, 8);
  }

  /** A page that lies wholly inside a private loaded area is the parent's, word for word. */
  lemma WholePage(ram0: Ram, ram: Ram, root: nat, pgDir: nat, used0: set<nat>, used: set<nat>, vs: seq<Vma>, cs: seq<Vma>, j: nat, k: nat)
    requires Forkable(vs) && j < |vs| && Clones(ram0, ram, root, used0, used, vs, cs, |vs|)
    requires AllLoadable(cs) && MappedFirst(ram, pgDir, cs, |cs|)
    requires Loaded(vs[j]) && !vs[j].shared && vs[j].start + 0x1000 * (k + 1) <= vs[j].end
    ensures var p := vs[j].start + 0x1000 * k;
            SameContents(ram0, Next(LeafEntry(ram0, root, p)), ram, Next(LeafEntry(ram, pgDir, p)))
  {
    hide LeafEntry, Next, Entry, Clone, Pages, MappedTo;
    var v := vs[j];
    assert k < VmaPages(v) && PageBytes(v, k) == PAGE_SIZE && UserPage(v, k) == v.start + 0x1000 * k;
    ChildPage(ram0, ram, root, pgDir, used0, used, vs, cs, j, k);
    var f, f0 := Next(LeafEntry(ram, pgDir, UserPage(v, k))), SourcePage(ram0, root, v, k);
    assert forall w :: 0 <= w < WORDS ==> SameWord(ram[f][w], ram0[f0][w], w, PAGE_SIZE);
    assert ram[f] == ram0[f0];
  }

  lemma ChildEntry(ram0: Ram, ram: Ram, root: nat, pgDir: nat, used0: set<nat>, used: set<nat>, vs: seq<Vma>, cs: seq<Vma>, j: nat, a: nat)
    requires Forkable(vs) && j < |vs| && Clones(ram0, ram, root, used0, used, vs, cs, |vs|)
    requires AllLoadable(cs) && MappedFirst(ram, pgDir, cs, |cs|)
    requires Loaded(vs[j]) && vs[j].start <= a < vs[j].end
    ensures LeafEntry(ram, pgDir, a) % 0x1000 == if vs[j].write then 0xF53 else 0xFD3
    ensures vs[j].shared ==> Va(LoadPage(vs[j], (a - vs[j].start) / PAGE_SIZE)) == vs[j].lma + (a - vs[j].start) / 0x1000 * 0x1000 + 0xFFFF_FFC0_0000_0000
  {
    hide LeafEntry, Entry, InLoaded, SameBytes, MappedTo;
    var v, c := vs[j], cs[|vs| - 1 - j];
    assert Clone(ram0, ram, root, used0, used, v, c);
    assert Loadable(c) && Loaded(c) by { if !v.shared { LoadedAddr(c.blocks[0].linearAddr); } }
    EntryAt(ram, pgDir, c, a);
    LowBits(c.lma, (a - c.start) / 0x1000, if c.write then 0xF53 else 0xFD3);
  }

  lemma LowBits(lma: nat, k: nat, low: nat)
    requires lma % PAGE_SIZE == 0 && low < PAGE_SIZE
    ensures (lma + k * 0x1000 + low) % 0x1000 == low
  {
  }

  /** A mapped area reads the frames it is loaded at. */
  lemma MappedReads(ram: Ram, root: nat, v: Vma, k: nat)
    requires Loadable(v) && Loaded(v) && MappedTo(ram, root, v) && k < VmaPages(v)
    ensures SourcePage(ram, root, v, k) == Va(LoadPage(v, k))
  {
    hide LeafEntry, PhyAddr, Entry;
    LoadPageGood(v, k);
    EntryPhyAddr(LoadPage(v, k), AttrsOf(v));
  }

  lemma LoadedAddr(a: nat)
    requires InPool(a)
    ensures 0 <= Pa(a) < BIT48 && Pa(a) != NO_LMA
  {
  }

  lemma PaPage(a: nat, k: nat)
    requires InPool(a)
    ensures Pa(a) >= 0 && Va(PageAt(Pa(a), k)) == PageAt(a, k)
  {
  }
}
