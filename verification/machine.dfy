/** The page pool of mm/memory.c and the page frames it manages. */
module Machine {
  import opened Arith

  const PAGE_SIZE := 4096
  const WORDS := 512
  const MAX_NUM_PAGES := 65536
  // Kernel linear addresses: physical plus PAGE_OFFSET.
  const PAGE_OFFSET := 0xFFFF_FFC0_0000_0000
  const PAGE_POOL_START := PAGE_OFFSET + 0x7000_0000
  const PAGE_POOL_END := PAGE_POOL_START + PAGE_SIZE * MAX_NUM_PAGES
  const NULL := 0

  function Va(phys: nat): nat { phys + PAGE_OFFSET }

  function Pa(addr: int): int { addr - PAGE_OFFSET }

  /** Linear address of pool page `n`. */
  function Frame(n: nat): nat { PAGE_POOL_START + PAGE_SIZE * n }

  predicate InPool(a: nat) {
    PAGE_POOL_START <= a < PAGE_POOL_END && (a - PAGE_POOL_START) % PAGE_SIZE == 0
  }

  // ---------------------------------------------------------------------------------------
  // The usage map

  /** Pages i .. i+num exist and are free. */
  predicate FreeRun(u: seq<bool>, i: nat, num: nat) {
    i + num <= |u| && forall k :: i <= k < i + num ==> !u[k]
  }

  /** The map with pages i .. i+num set to `v`. */
  function Mark(u: seq<bool>, i: nat, num: nat, v: bool): (r: seq<bool>)
    ensures |r| == |u|
  {
    seq(|u|, k requires 0 <= k < |u| => if i <= k < i + num then v else u[k])
  }

  /** Freeing a run that was free before it was taken restores the map. */
  lemma MarkUnmark(u: seq<bool>, i: nat, num: nat)
    requires FreeRun(u, i, num)
    ensures Mark(Mark(u, i, num, true), i, num, false) == u
  {
  }

  /** Linear addresses of the pages in use. */
  ghost function UsedSet(u: seq<bool>): set<nat> {
    set n | 0 <= n < |u| && u[n] :: Frame(n)
  }

  /** The `num` pages from address `a` on. */
  ghost function Pages(a: nat, num: nat): set<nat> {
    set k | 0 <= k < num :: a + PAGE_SIZE * k
  }

  lemma PagesOne(a: nat)
    ensures Pages(a, Pow2(0)) == {a}
  {
    assert a + PAGE_SIZE * 0 in Pages(a, 1);
  }

  lemma FrameInSet(u: seq<bool>, n: nat)
    requires n < |u|
    ensures Frame(n) in UsedSet(u) <==> u[n]
  {
    if Frame(n) in UsedSet(u) {
      var k :| 0 <= k < |u| && u[k] && Frame(k) == Frame(n);
      assert k == n;
    }
  }

  /** The set of used pages determines the map. */
  lemma UsedInjective(u: seq<bool>, v: seq<bool>)
    requires |u| == |v| && UsedSet(u) == UsedSet(v)
    ensures u == v
  {
    forall n | 0 <= n < |u| ensures u[n] == v[n] {
      FrameInSet(u, n);
      FrameInSet(v, n);
    }
  }

  /** Taking and giving back a run, in terms of sets of pages. */
  lemma UsedMark(u: seq<bool>, i: nat, num: nat)
    requires i + num <= |u|
    ensures UsedSet(Mark(u, i, num, true)) == UsedSet(u) + Pages(Frame(i), num)
    ensures UsedSet(Mark(u, i, num, false)) == UsedSet(u) - Pages(Frame(i), num)
  {
    PagesAreFrames(i, num);
    var ps := Pages(Frame(i), num);
    var t, f := Mark(u, i, num, true), Mark(u, i, num, false);
    hide Pages, Frame;
    forall a ensures a in UsedSet(t) <==> a in UsedSet(u) + ps {
      if a in UsedSet(t) {
        var n :| 0 <= n < |t| && t[n] && a == Frame(n);
        assert u[n] || i <= n < i + num;
      }
      if a in UsedSet(u) {
        var n :| 0 <= n < |u| && u[n] && a == Frame(n);
        assert t[n];
      }
      if a in ps {
        var n :| i <= n < i + num && a == Frame(n);
        assert t[n];
      }
    }
    forall a ensures a in UsedSet(f) <==> a in UsedSet(u) - ps {
      if a in UsedSet(f) {
        var n :| 0 <= n < |f| && f[n] && a == Frame(n);
        assert u[n] && !(i <= n < i + num);
      }
      if a in UsedSet(u) && a !in ps {
        var n :| 0 <= n < |u| && u[n] && a == Frame(n);
        assert f[n];
      }
    }
  }

  lemma PagesAreFrames(i: nat, num: nat)
    ensures forall n: nat :: Frame(n) in Pages(Frame(i), num) <==> i <= n < i + num
    ensures forall a :: a in Pages(Frame(i), num) ==> exists n :: i <= n < i + num && a == Frame(n)
  {
    forall n: nat ensures Frame(n) in Pages(Frame(i), num) <==> i <= n < i + num {
      PageIndex(i, num, n);
    }
    forall a | a in Pages(Frame(i), num) ensures exists n :: i <= n < i + num && a == Frame(n) {
      var k :| 0 <= k < num && a == Frame(i) + PAGE_SIZE * k;
      assert a == Frame(i + k);
    }
  }

  /** A run is free, or wholly in use, exactly when its pages are. */
  lemma UsedRun(u: seq<bool>, i: nat, num: nat)
    requires i + num <= |u|
    ensures FreeRun(u, i, num) <==> UsedSet(u) !! Pages(Frame(i), num)
    ensures (forall k :: i <= k < i + num ==> u[k]) <==> Pages(Frame(i), num) <= UsedSet(u)
  {
    PagesAreFrames(i, num);
    var ps := Pages(Frame(i), num);
    forall n: nat | n < |u| ensures Frame(n) in UsedSet(u) <==> u[n] {
      FrameInSet(u, n);
    }
    hide Pages, Frame;
    if UsedSet(u) !! ps {
      forall k | i <= k < i + num ensures !u[k] { assert Frame(k) in ps; }
    }
    if ps <= UsedSet(u) {
      forall k | i <= k < i + num ensures u[k] { assert Frame(k) in ps; }
    }
  }

  lemma PageIndex(i: nat, num: nat, n: nat)
    ensures Frame(n) in Pages(Frame(i), num) <==> i <= n < i + num
  {
    if i <= n < i + num {
      assert Frame(n) == Frame(i) + PAGE_SIZE * (n - i);
    }
  }

  // ---------------------------------------------------------------------------------------
  // The allocator

  datatype FreeOutcome = Freed | Rejected | Halted

  class PageMemory {
    const usage: array<bool>
    /** Contents of every page frame, 512 words each, by linear address. */
    var ram: map<nat, seq<nat>>

    constructor (frames: map<nat, seq<nat>>)
      requires forall n: nat :: n < MAX_NUM_PAGES ==> Frame(n) in frames
      requires forall f :: f in frames ==> |frames[f]| == WORDS
      ensures Valid() && fresh(usage)
      ensures Used() == {} && ram == frames
    {
      usage := new bool[MAX_NUM_PAGES](_ => false);
      ram := frames;
    }

    ghost predicate Valid()
      reads this
    {
      && usage.Length == MAX_NUM_PAGES
      && (forall n: nat :: n < MAX_NUM_PAGES ==> Frame(n) in ram)
      && (forall f :: f in ram ==> |ram[f]| == WORDS)
    }

    /** The pages in use. */
    ghost function Used(): set<nat>
      reads usage
    {
      UsedSet(usage[..])
    }

    /** The lowest run of `num` free pages is taken; -1 exactly when there is none. */
    method FindFreePages(num: nat) returns (first: int)
      modifies usage
      ensures first == -1 || 0 <= first
      ensures first >= 0 ==>
                && num > 0 && FreeRun(old(usage[..]), first, num)
                && (forall i: nat :: i < first ==> !FreeRun(old(usage[..]), i, num))
                && usage[..] == Mark(old(usage[..]), first, num, true)
      ensures first == -1 ==>
                && usage[..] == old(usage[..])
                && (num == 0 || forall i: nat :: !FreeRun(usage[..], i, num))
    {
      if num == 0 {
        return -1;
      }
      ghost var u := usage[..];
      var lastPage := -1;
      var freeCount := 0;
      var i := 0;
      while i < usage.Length
        invariant 0 <= freeCount <= i <= usage.Length && freeCount < num
        invariant forall k :: i - freeCount <= k < i ==> !u[k]
        invariant i - freeCount > 0 ==> u[i - freeCount - 1]
        invariant forall j: nat :: j + num <= i ==> !FreeRun(u, j, num)
        invariant lastPage == -1 && usage[..] == u
      {
        if !usage[i] {
          freeCount := freeCount + 1;
          if freeCount == num {
            lastPage := i;
            break;
          }
          NoneEndsHere(u, i, freeCount, num);
        } else {
          freeCount := 0;
          forall j: nat | j + num <= i + 1 ensures !FreeRun(u, j, num) {
            if j + num == i + 1 { assert u[i]; }
          }
        }
        i := i + 1;
      }
      if lastPage < 0 {
        return -1;
      }
      first := lastPage - num + 1;
      assert FreeRun(u, first, num);
      i := first;
      while i <= lastPage
        invariant first <= i <= lastPage + 1
        invariant forall k :: 0 <= k < usage.Length ==> usage[k] == (if first <= k < i then true else u[k])
      {
        usage[i] := true;
        i := i + 1;
      }
      assert usage[..] == Mark(u, first, num, true);
    }

    static lemma NoneEndsHere(u: seq<bool>, i: nat, freeCount: nat, num: nat)
      requires 0 < freeCount <= i + 1 <= |u| && freeCount < num
      requires i + 1 - freeCount > 0 ==> u[i - freeCount]
      requires forall j: nat :: j + num <= i ==> !FreeRun(u, j, num)
      ensures forall j: nat :: j + num <= i + 1 ==> !FreeRun(u, j, num)
    {
      forall j: nat | j + num <= i + 1 ensures !FreeRun(u, j, num) {
        if j + num == i + 1 { assert u[i - freeCount]; }
      }
    }

    method GetFreePages(order: nat) returns (page: nat)
      requires Valid()
      modifies usage
      ensures page == NULL || InPool(page)
      ensures page != NULL ==>
                && Pages(page, Pow2(order)) !! old(Used())
                && Used() == old(Used()) + Pages(page, Pow2(order))
                && PAGE_SIZE * Pow2(order) <= PAGE_POOL_END - page
      ensures page == NULL ==>
                && usage[..] == old(usage[..])
                && forall i: nat :: !FreeRun(usage[..], i, Pow2(order))
    {
      var num := Pow2(order);
      var first := FindFreePages(num);
      if first >= 0 {
        UsedMark(old(usage[..]), first, num);
        UsedRun(old(usage[..]), first, num);
        page := PAGE_POOL_START + PAGE_SIZE * first;
      } else {
        page := NULL;
      }
    }

    method GetZeroedPages(order: nat) returns (pages: nat)
      requires Valid()
      modifies usage, this`ram
      ensures Valid()
      ensures pages == NULL || InPool(pages)
      ensures pages != NULL ==>
                && Pages(pages, Pow2(order)) !! old(Used())
                && Used() == old(Used()) + Pages(pages, Pow2(order))
      ensures pages == NULL ==> usage[..] == old(usage[..]) && ram == old(ram)
      ensures pages == NULL ==> forall i: nat :: !FreeRun(usage[..], i, Pow2(order))
      ensures ram.Keys == old(ram.Keys)
      ensures pages != NULL ==> forall f :: f in ram ==>
                ram[f] == if f in Pages(pages, Pow2(order)) then seq(WORDS, _ => 0) else old(ram[f])
    {
      pages := GetFreePages(order);
      if pages != NULL {
        ram := map f | f in ram :: if IsPage(pages, Pow2(order), f) then seq(WORDS, _ => 0) else ram[f];
      }
    }

    static function IsPage(a: nat, num: nat, f: nat): (r: bool)
      ensures r == (f in Pages(a, num))
    {
      var r := a <= f && (f - a) % PAGE_SIZE == 0 && (f - a) / PAGE_SIZE < num;
      IsPageRight(a, num, f);
      r
    }

    static lemma IsPageRight(a: nat, num: nat, f: nat)
      ensures (a <= f && (f - a) % PAGE_SIZE == 0 && (f - a) / PAGE_SIZE < num) == (f in Pages(a, num))
    {
      if a <= f && (f - a) % PAGE_SIZE == 0 && (f - a) / PAGE_SIZE < num {
        assert f == a + PAGE_SIZE * ((f - a) / PAGE_SIZE);
      }
    }

    /** Clears 2^order pages; stops the kernel at the first one that is not in use. */
    method FreePages(addr: nat, order: nat) returns (r: FreeOutcome)
      requires Valid()
      requires InPool(addr) ==> PAGE_SIZE * Pow2(order) <= PAGE_POOL_END - addr
      modifies usage
      ensures r == Rejected <==> !InPool(addr)
      ensures r == Rejected ==> usage[..] == old(usage[..])
      ensures r == Freed ==> Used() == old(Used()) - Pages(addr, Pow2(order))
      ensures r == Freed <==> InPool(addr) && Pages(addr, Pow2(order)) <= old(Used())
    {
      var num := Pow2(order);
      if addr < PAGE_POOL_START || addr >= PAGE_POOL_END {
        return Rejected;
      }
      if (addr - PAGE_POOL_START) % PAGE_SIZE != 0 {
        return Rejected;
      }
      ghost var u := usage[..];
      var first := (addr - PAGE_POOL_START) / PAGE_SIZE;
      UsedMark(u, first, num);
      UsedRun(u, first, num);
      var i := 0;
      while i < num
        invariant 0 <= i <= num
        invariant forall k :: first <= k < first + i ==> u[k]
        invariant forall k :: 0 <= k < usage.Length ==> usage[k] == (if first <= k < first + i then false else u[k])
      {
        if !usage[first + i] {
          return Halted;
        }
        usage[first + i] := false;
        i := i + 1;
      }
      assert usage[..] == Mark(u, first, num, false);
      return Freed;
    }
  }
}
