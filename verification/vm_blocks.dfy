/** struct pages_block and vm_area_struct (include/mm_types.h), and the pages they account for. */
module VmBlocks {
  import opened Arith
  import opened Machine

  const U64 := 0x1_0000_0000_0000_0000
  /** (unsigned long)(-1): the area has no load address and is paged on demand. */
  const NO_LMA: nat := U64 - 1

  datatype PagesBlock = PagesBlock(userVirtAddr: nat, linearAddr: nat, order: nat)

  datatype Vma = Vma(start: nat, end: nat, shared: bool, write: bool, lma: nat, blocks: seq<PagesBlock>)

  /** The pages a block stands for. */
  ghost function BlockPages(b: PagesBlock): multiset<nat> { multiset(Pages(b.linearAddr, Pow2(b.order))) }

  ghost function BlocksPages(bs: seq<PagesBlock>): multiset<nat> {
    if bs == [] then multiset{} else BlockPages(bs[0]) + BlocksPages(bs[1..])
  }

  /** The pages exit_mm gives back for the areas: those of the blocks of private areas. */
  ghost function OwnedPages(vs: seq<Vma>): multiset<nat> {
    if vs == [] then multiset{} else (if vs[0].shared then multiset{} else BlocksPages(vs[0].blocks)) + OwnedPages(vs[1..])
  }

  /** A block as get_free_pages made it. */
  predicate GoodBlock(b: PagesBlock) {
    InPool(b.linearAddr) && PAGE_SIZE * Pow2(b.order) <= PAGE_POOL_END - b.linearAddr
  }

  ghost predicate GoodBlocks(bs: seq<PagesBlock>) { forall i :: 0 <= i < |bs| ==> GoodBlock(bs[i]) }

  ghost predicate GoodVmas(vs: seq<Vma>) { forall i :: 0 <= i < |vs| ==> GoodBlocks(vs[i].blocks) }

  lemma {:induction false} BlocksAppend(xs: seq<PagesBlock>, ys: seq<PagesBlock>)
    ensures BlocksPages(xs + ys) == BlocksPages(xs) + BlocksPages(ys)
  {
    hide BlockPages;
    if xs == [] {
      assert xs + ys == ys;
    } else {
      assert (xs + ys)[1..] == xs[1..] + ys;
      BlocksAppend(xs[1..], ys);
    }
  }

  lemma {:induction false} BlocksOne(b: PagesBlock)
    ensures BlocksPages([b]) == BlockPages(b)
  {
    assert [b][1..] == [];
  }

  lemma {:induction false} OnePageBlock(b: PagesBlock)
    requires b.order == 0
    ensures BlockPages(b) == multiset{b.linearAddr}
  {
    PagesOne(b.linearAddr);
  }

  lemma {:induction false} OwnedAppend(xs: seq<Vma>, ys: seq<Vma>)
    ensures OwnedPages(xs + ys) == OwnedPages(xs) + OwnedPages(ys)
  {
    hide BlocksPages;
    if xs == [] {
      assert xs + ys == ys;
    } else {
      assert (xs + ys)[1..] == xs[1..] + ys;
      OwnedAppend(xs[1..], ys);
    }
  }

  /** Changing the block list of private area `i` changes the account by the difference. */
  lemma {:induction false} OwnedUpdate(vs: seq<Vma>, i: nat, v: Vma)
    requires i < |vs| && !vs[i].shared && !v.shared
    ensures OwnedPages(vs[i := v]) + BlocksPages(vs[i].blocks) == OwnedPages(vs) + BlocksPages(v.blocks)
  {
    hide BlocksPages;
    var ws := vs[i := v];
    assert vs == vs[..i] + ([vs[i]] + vs[i + 1..]);
    assert ws == vs[..i] + ([v] + vs[i + 1..]);
    OwnedAppend(vs[..i], [vs[i]] + vs[i + 1..]);
    OwnedAppend(vs[..i], [v] + vs[i + 1..]);
    OwnedCons(vs[i], vs[i + 1..]);
    OwnedCons(v, vs[i + 1..]);
  }

  lemma {:induction false} OwnedCons(v: Vma, vs: seq<Vma>)
    ensures OwnedPages([v] + vs) == (if v.shared then multiset{} else BlocksPages(v.blocks)) + OwnedPages(vs)
  {
    assert ([v] + vs)[1..] == vs;
  }

  lemma {:induction false} OwnedNone(vs: seq<Vma>)
    requires forall i :: 0 <= i < |vs| ==> vs[i].blocks == []
    ensures OwnedPages(vs) == multiset{}
  {
    if vs != [] { OwnedNone(vs[1..]); }
  }

  /** Areas that agree on sharing and blocks account for the same pages. */
  lemma {:induction false} OwnedSame(vs: seq<Vma>, ws: seq<Vma>)
    requires |vs| == |ws|
    requires forall i :: 0 <= i < |vs| ==> vs[i].shared == ws[i].shared && vs[i].blocks == ws[i].blocks
    ensures OwnedPages(vs) == OwnedPages(ws)
  {
    hide BlocksPages;
    if vs != [] { OwnedSame(vs[1..], ws[1..]); }
  }

  // ---------------------------------------------------------------------------------------
  // Removing the blocks of an address range

  predicate InRange(b: PagesBlock, lo: nat, hi: nat) { lo <= b.userVirtAddr < hi }

  /** The blocks in [lo, hi). */
  function Inside(bs: seq<PagesBlock>, lo: nat, hi: nat): (r: seq<PagesBlock>)
    ensures forall b :: b in r <==> b in bs && InRange(b, lo, hi)
  {
    if bs == [] then [] else (if InRange(bs[0], lo, hi) then [bs[0]] else []) + Inside(bs[1..], lo, hi)
  }

  /** What sys_brk's deletion loop leaves: the blocks outside [lo, hi), in their order. */
  function Outside(bs: seq<PagesBlock>, lo: nat, hi: nat): (r: seq<PagesBlock>)
    ensures forall b :: b in r <==> b in bs && !InRange(b, lo, hi)
  {
    if bs == [] then [] else (if InRange(bs[0], lo, hi) then [] else [bs[0]]) + Outside(bs[1..], lo, hi)
  }

  lemma {:induction false} Partition(bs: seq<PagesBlock>, lo: nat, hi: nat)
    ensures BlocksPages(bs) == BlocksPages(Inside(bs, lo, hi)) + BlocksPages(Outside(bs, lo, hi))
  {
    hide BlockPages;
    if bs != [] {
      Partition(bs[1..], lo, hi);
      if InRange(bs[0], lo, hi) {
        BlocksAppend([bs[0]], Inside(bs[1..], lo, hi));
        assert Outside(bs, lo, hi) == Outside(bs[1..], lo, hi);
      } else {
        BlocksAppend([bs[0]], Outside(bs[1..], lo, hi));
        assert Inside(bs, lo, hi) == Inside(bs[1..], lo, hi);
      }
      BlocksOne(bs[0]);
    }
  }

  lemma {:induction false} InsideAppend(xs: seq<PagesBlock>, ys: seq<PagesBlock>, lo: nat, hi: nat)
    ensures Inside(xs + ys, lo, hi) == Inside(xs, lo, hi) + Inside(ys, lo, hi)
  {
    if xs == [] {
      assert xs + ys == ys;
    } else {
      assert (xs + ys)[1..] == xs[1..] + ys;
      InsideAppend(xs[1..], ys, lo, hi);
    }
  }

  lemma {:induction false} OutsideAppend(xs: seq<PagesBlock>, ys: seq<PagesBlock>, lo: nat, hi: nat)
    ensures Outside(xs + ys, lo, hi) == Outside(xs, lo, hi) + Outside(ys, lo, hi)
  {
    if xs == [] {
      assert xs + ys == ys;
    } else {
      assert (xs + ys)[1..] == xs[1..] + ys;
      OutsideAppend(xs[1..], ys, lo, hi);
    }
  }

  /** No two blocks of the range are for the same user page. */
  ghost predicate DistinctIn(bs: seq<PagesBlock>, lo: nat, hi: nat) {
    forall i, j :: 0 <= i < j < |bs| && InRange(bs[i], lo, hi) && InRange(bs[j], lo, hi) ==> bs[i].userVirtAddr != bs[j].userVirtAddr
  }

  /** Adjacent ranges add up. */
  lemma {:induction false} InsideSplit(bs: seq<PagesBlock>, lo: nat, mid: nat, hi: nat)
    requires lo <= mid <= hi
    ensures BlocksPages(Inside(bs, lo, hi)) == BlocksPages(Inside(bs, lo, mid)) + BlocksPages(Inside(bs, mid, hi))
  {
    hide BlockPages;
    if bs != [] {
      var a, ts := bs[0], bs[1..];
      InsideSplit(ts, lo, mid, hi);
      InsideCons(bs, lo, mid);
      InsideCons(bs, mid, hi);
      InsideCons(bs, lo, hi);
    }
  }

  lemma {:induction false} InsideCons(bs: seq<PagesBlock>, lo: nat, hi: nat)
    requires bs != []
    ensures BlocksPages(Inside(bs, lo, hi)) ==
            (if InRange(bs[0], lo, hi) then BlockPages(bs[0]) else multiset{}) + BlocksPages(Inside(bs[1..], lo, hi))
  {
    hide BlockPages;
    BlocksOne(bs[0]);
    if InRange(bs[0], lo, hi) {
      BlocksAppend([bs[0]], Inside(bs[1..], lo, hi));
    } else {
      assert Inside(bs, lo, hi) == Inside(bs[1..], lo, hi);
    }
  }

  /** A range with one block's address in it contains that block alone. */
  lemma {:induction false} InsideSingle(bs: seq<PagesBlock>, lo: nat, hi: nat, b: PagesBlock)
    requires DistinctIn(bs, lo, hi) && b in bs && InRange(b, lo, hi)
    requires forall c :: c in bs && InRange(c, lo, hi) ==> c.userVirtAddr == b.userVirtAddr
    ensures Inside(bs, lo, hi) == [b]
  {
    var ts := bs[1..];
    assert forall i :: 0 <= i < |ts| ==> ts[i] == bs[i + 1];
    if InRange(bs[0], lo, hi) {
      forall c | c in ts ensures !InRange(c, lo, hi) {
        var j :| 0 <= j < |ts| && ts[j] == c;
        assert bs[j + 1] == c;
      }
      assert b == bs[0];
      InsideNothing(ts, lo, hi);
    } else {
      InsideSingle(ts, lo, hi, b);
    }
  }

  lemma {:induction false} InsideNothing(bs: seq<PagesBlock>, lo: nat, hi: nat)
    requires forall c :: c in bs ==> !InRange(c, lo, hi)
    ensures Inside(bs, lo, hi) == [] && Outside(bs, lo, hi) == bs
  {
    hide InRange;
    if bs != [] {
      assert bs[0] in bs && bs == [bs[0]] + bs[1..];
      InsideNothing(bs[1..], lo, hi);
    }
  }

  lemma {:induction false} SubBlocks(xs: seq<PagesBlock>, b: PagesBlock)
    requires b in xs
    ensures BlockPages(b) <= BlocksPages(xs)
  {
    hide BlockPages;
    if xs[0] != b { SubBlocks(xs[1..], b); }
  }
}
