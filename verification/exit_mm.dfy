/** exit_mm (kernel/sched.c): every page of a private block and every page-table frame goes back to the pool. */
module Exit {
  import opened Arith
  import opened Machine
  import opened PageTable
  import opened Teardown
  import opened VmBlocks
  import opened AddressSpace

  /** Freeing a block whose pages are all in use takes exactly those pages away. */
  lemma FreeBlockPages(used: set<nat>, used': set<nat>, b: PagesBlock, rest: multiset<nat>)
    requires BlockPages(b) + rest <= multiset(used)
    ensures Pages(b.linearAddr, Pow2(b.order)) <= used
    ensures used' == used - Pages(b.linearAddr, Pow2(b.order)) ==> multiset(used') == multiset(used) - BlockPages(b) && rest <= multiset(used')
  {
    hide Pages;
    var ps := Pages(b.linearAddr, Pow2(b.order));
    assert BlockPages(b) == multiset(ps);
    forall f | f in ps ensures f in used {
      assert f in multiset(ps);
      assert multiset(used)[f] >= (multiset(ps) + rest)[f];
    }
    if used' == used - ps {
      forall f ensures multiset(used')[f] == (multiset(used) - multiset(ps))[f] {
        assert (multiset(ps) + rest)[f] <= multiset(used)[f];
      }
    }
  }

  /** free_pages_blocks. */
  method FreePagesBlocks(m: PageMemory, v: Vma) returns (r: FreeOutcome)
    requires m.Valid() && GoodBlocks(v.blocks) && BlocksPages(v.blocks) <= multiset(m.Used())
    modifies m.usage
    ensures r == Freed
    ensures multiset(m.Used()) == multiset(old(m.Used())) - BlocksPages(v.blocks)
  {
    hide BlockPages, BlocksPages, InPool, Pages;
    ghost var used0 := multiset(m.Used());
    r := Freed;
    var bs := v.blocks;
    StartTaking(bs);
    for i := 0 to |bs|
      invariant r == Freed
      invariant multiset(m.Used()) == used0 - BlocksPages(bs[..i])
    {
      var pb := bs[i];
      assert GoodBlock(pb);
      TakingStep(bs, i);
      ghost var used1 := m.Used();
      FreeBlockPages(used1, used1 - Pages(pb.linearAddr, Pow2(pb.order)), pb, multiset{});
      r := m.FreePages(pb.linearAddr, pb.order);
    }
    assert bs[..|bs|] == bs;
  }

  lemma StartTaking(bs: seq<PagesBlock>)
    ensures BlocksPages(bs[..0]) == multiset{}
  {
  }

  lemma TakingStep(bs: seq<PagesBlock>, i: nat)
    requires i < |bs|
    ensures BlocksPages(bs[..i + 1]) == BlocksPages(bs[..i]) + BlockPages(bs[i])
    ensures BlocksPages(bs[..i]) + BlockPages(bs[i]) <= BlocksPages(bs)
  {
    hide BlockPages;
    assert bs[..i + 1] == bs[..i] + [bs[i]];
    BlocksAppend(bs[..i], [bs[i]]);
    BlocksOne(bs[i]);
    assert bs == bs[..i + 1] + bs[i + 1..];
    BlocksAppend(bs[..i + 1], bs[i + 1..]);
  }

  lemma OwnedStep(vs: seq<Vma>, i: nat)
    requires i < |vs|
    ensures OwnedPages(vs[..i + 1]) == OwnedPages(vs[..i]) + (if vs[i].shared then multiset{} else BlocksPages(vs[i].blocks))
    ensures OwnedPages(vs[..i + 1]) <= OwnedPages(vs)
  {
    hide BlocksPages, OwnedPages;
    assert vs[..i + 1] == vs[..i] + [vs[i]];
    OwnedAppend(vs[..i], [vs[i]]);
    OwnedOne(vs[i]);
    assert vs == vs[..i + 1] + vs[i + 1..];
    OwnedAppend(vs[..i + 1], vs[i + 1..]);
  }

  lemma OwnedOne(v: Vma)
    ensures OwnedPages([v]) == if v.shared then multiset{} else BlocksPages(v.blocks)
  {
    hide BlocksPages;
    OwnedCons(v, []);
    assert [v] + [] == [v];
  }

  lemma Remaining(u: multiset<nat>, taken: multiset<nat>, all: multiset<nat>, t: multiset<nat>, b: multiset<nat>)
    requires taken + b <= all && all + t <= u
    ensures b <= u - taken && u - taken - b == u - (taken + b) && t <= u - all
  {
    forall f ensures b[f] <= (u - taken)[f] && (u - taken - b)[f] == (u - (taken + b))[f] && t[f] <= (u - all)[f] {
      assert (taken + b)[f] <= all[f];
      assert (all + t)[f] <= u[f];
    }
  }

  /**
   * exit_mm: every page of a private block and every page-table frame is freed exactly once, so
   * the assert in free_pages never fires. A null directory has no tables.
   */
  method ExitMm(m: PageMemory, vs: seq<Vma>, pgDir: nat, ghost tabs: map<nat, Node>) returns (r: FreeOutcome)
    requires m.Valid() && GoodVmas(vs)
    requires if pgDir == NULL then tabs == map[] else TreeOk(m.ram, pgDir, tabs)
    requires OwnedPages(vs) + multiset(tabs.Keys) <= multiset(m.Used())
    modifies m.usage
    ensures r == Freed
    ensures multiset(m.Used()) == multiset(old(m.Used())) - (OwnedPages(vs) + multiset(tabs.Keys))
  {
    hide OwnedPages, BlocksPages, TreeOk;
    ghost var u := multiset(m.Used());
    r := Freed;
    NoneOwned(vs);
    for i := 0 to |vs|
      invariant r == Freed
      invariant multiset(m.Used()) == u - OwnedPages(vs[..i])
    {
      assert GoodBlocks(vs[i].blocks);
      OwnedStep(vs, i);
      if !vs[i].shared {
        Remaining(u, OwnedPages(vs[..i]), OwnedPages(vs), multiset(tabs.Keys), BlocksPages(vs[i].blocks));
        r := FreePagesBlocks(m, vs[i]);
      }
    }
    assert vs[..|vs|] == vs;
    Remaining(u, OwnedPages(vs), OwnedPages(vs), multiset(tabs.Keys), multiset{});
    ghost var u1 := m.Used();
    TablesLeft(u1, tabs.Keys);
    if pgDir != NULL {
      r := FreePageTables(m, pgDir, tabs);
    }
    AfterTables(u, OwnedPages(vs), multiset(tabs.Keys));
  }

  lemma NoneOwned(vs: seq<Vma>)
    ensures OwnedPages(vs[..0]) == multiset{}
  {
  }

  lemma TablesLeft(u: set<nat>, ts: set<nat>)
    requires multiset(ts) <= multiset(u)
    ensures ts <= u && multiset(u - ts) == multiset(u) - multiset(ts)
  {
    forall f | f in ts ensures f in u {
      assert f in multiset(ts);
      assert f in multiset(u);
    }
  }

  lemma AfterTables(u: multiset<nat>, o: multiset<nat>, t: multiset<nat>)
    requires o + t <= u
    ensures u - o - t == u - (o + t)
  {
    forall f ensures (u - o - t)[f] == (u - (o + t))[f] {
      assert (o + t)[f] <= u[f];
    }
  }

  /** What exit leaves of the account: the pages of `base` and the ones no list recorded. */
  lemma LedgerExit(u0: set<nat>, u1: set<nat>, base: set<nat>, tabs: map<nat, Node>, vs: seq<Vma>, lost: seq<PagesBlock>)
    requires Ledger(u0, base, tabs, vs, lost)
    requires multiset(u1) == multiset(u0) - (OwnedPages(vs) + multiset(tabs.Keys))
    ensures multiset(u1) == multiset(base) + BlocksPages(lost)
  {
    hide OwnedPages, BlocksPages;
    var o, l := OwnedPages(vs), BlocksPages(lost);
    assert multiset(u0) == multiset(base) + multiset(tabs.Keys) + o + l;
    forall f ensures multiset(u1)[f] == (multiset(base) + l)[f] {
      assert multiset(u0)[f] == (multiset(base) + multiset(tabs.Keys) + o + l)[f];
    }
  }

  lemma LedgerOwned(u0: set<nat>, base: set<nat>, tabs: map<nat, Node>, vs: seq<Vma>, lost: seq<PagesBlock>)
    requires Ledger(u0, base, tabs, vs, lost)
    ensures OwnedPages(vs) + multiset(tabs.Keys) <= multiset(u0)
  {
    hide OwnedPages, BlocksPages;
    var o, l := OwnedPages(vs), BlocksPages(lost);
    forall f ensures (o + multiset(tabs.Keys))[f] <= multiset(u0)[f] {
      assert multiset(u0)[f] == (multiset(base) + multiset(tabs.Keys) + o + l)[f];
    }
  }
}
