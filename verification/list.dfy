/**
 * The circular doubly linked list of include/list.h, as the form the pages_block_list of a memory
 * area has in memory. A list is a ring of links through its head; the links poisoned by list_del are null.
 */
module BlockList {
  import opened VmBlocks

  /** struct pages_block: the link is embedded in the record. The head of a list is a link whose block means nothing. */
  class Link {
    var next: Link?
    var prev: Link?
    const block: PagesBlock

    constructor (block: PagesBlock)
      ensures this.block == block && next == null && prev == null
    {
      this.block, next, prev := block, null, null;
    }
  }

  function Succ(ring: seq<Link>, i: nat): Link
    requires i < |ring|
  {
    if i + 1 < |ring| then ring[i + 1] else ring[0]
  }

  function Pred(ring: seq<Link>, i: nat): Link
    requires i < |ring|
  {
    if i > 0 then ring[i - 1] else ring[|ring| - 1]
  }

  ghost function Nexts(ring: seq<Link>): (ns: seq<Link?>)
    reads ring
    ensures |ns| == |ring| && forall i :: 0 <= i < |ring| ==> ns[i] == ring[i].next
  {
    seq(|ring|, i requires 0 <= i < |ring| reads ring => ring[i].next)
  }

  ghost function Prevs(ring: seq<Link>): (ps: seq<Link?>)
    reads ring
    ensures |ps| == |ring| && forall i :: 0 <= i < |ring| ==> ps[i] == ring[i].prev
  {
    seq(|ring|, i requires 0 <= i < |ring| reads ring => ring[i].prev)
  }

  predicate Forward(ring: seq<Link>, nexts: seq<Link?>) {
    |nexts| == |ring| && forall i :: 0 <= i < |ring| ==> nexts[i] == Succ(ring, i)
  }

  predicate Backward(ring: seq<Link>, prevs: seq<Link?>) {
    |prevs| == |ring| && forall i :: 0 <= i < |ring| ==> prevs[i] == Pred(ring, i)
  }

  predicate Distinct(ring: seq<Link>) {
    forall i, j :: 0 <= i < j < |ring| ==> ring[i] != ring[j]
  }

  /** The nodes form one ring, forwards by next and backwards by prev. */
  ghost predicate Circular(ring: seq<Link>)
    reads ring
  {
    |ring| > 0 && Forward(ring, Nexts(ring)) && Backward(ring, Prevs(ring)) && Distinct(ring)
  }

  /** `ring` with `node` put in after place k. */
  function With(ring: seq<Link>, k: nat, node: Link): seq<Link>
    requires k < |ring|
  {
    ring[..k + 1] + [node] + ring[k + 1..]
  }

  /** `ring` without the link at place k. */
  function Without(ring: seq<Link>, k: nat): seq<Link>
    requires k < |ring|
  {
    ring[..k] + ring[k + 1..]
  }

  function Blocks(links: seq<Link>): (bs: seq<PagesBlock>)
    ensures |bs| == |links| && forall i :: 0 <= i < |links| ==> bs[i] == links[i].block
  {
    seq(|links|, i requires 0 <= i < |links| => links[i].block)
  }

  /** The place after k, around the ring. */
  function After(n: nat, k: nat): (j: nat)
    requires k < n
    ensures j < n
  {
    if k + 1 < n then k + 1 else 0
  }

  /** `xs` with `x` put in after place k, and without place k. */
  function Insertion<T>(xs: seq<T>, k: nat, x: T): seq<T>
    requires k < |xs|
  {
    xs[..k + 1] + [x] + xs[k + 1..]
  }

  function Deletion<T>(xs: seq<T>, k: nat): seq<T>
    requires k < |xs|
  {
    xs[..k] + xs[k + 1..]
  }

  lemma LinkedForward(ring: seq<Link>, k: nat, node: Link, nexts: seq<Link?>)
    requires k < |ring| && Forward(ring, nexts)
    ensures Forward(With(ring, k, node), Insertion(nexts[k := node], k, Succ(ring, k)))
  {
  }

  lemma LinkedBackward(ring: seq<Link>, k: nat, node: Link, prevs: seq<Link?>)
    requires k < |ring| && Backward(ring, prevs)
    ensures Backward(With(ring, k, node), Insertion(prevs[After(|ring|, k) := node], k, ring[k]))
  {
  }

  lemma LinksWith(ring: seq<Link>, k: nat, node: Link)
    requires k < |ring|
    ensures Nexts(With(ring, k, node)) == Insertion(Nexts(ring), k, node.next)
    ensures Prevs(With(ring, k, node)) == Insertion(Prevs(ring), k, node.prev)
  {
  }

  lemma LinksWithout(ring: seq<Link>, k: nat)
    requires k < |ring|
    ensures Nexts(Without(ring, k)) == Deletion(Nexts(ring), k)
    ensures Prevs(Without(ring, k)) == Deletion(Prevs(ring), k)
  {
  }

  lemma SuccAfter(ring: seq<Link>, k: nat)
    requires k < |ring|
    ensures After(|ring|, k) < |ring| && Succ(ring, k) == ring[After(|ring|, k)]
  {
  }

  lemma WithAt(ring: seq<Link>, k: nat, node: Link)
    requires k < |ring|
    ensures |With(ring, k, node)| == |ring| + 1
    ensures forall i :: 0 <= i <= |ring| ==> With(ring, k, node)[i] == if i <= k then ring[i] else if i == k + 1 then node else ring[i - 1]
  {
  }

  lemma WithoutAt(ring: seq<Link>, k: nat)
    requires k < |ring|
    ensures |Without(ring, k)| == |ring| - 1
    ensures forall i :: 0 <= i < |ring| - 1 ==> Without(ring, k)[i] == if i < k then ring[i] else ring[i + 1]
  {
  }

  lemma Others(ring: seq<Link>, k: nat)
    requires k < |ring| && Distinct(ring)
    ensures forall i :: 0 <= i < |ring| && i != k ==> ring[i] != ring[k]
  {
  }

  lemma DistinctWith(ring: seq<Link>, k: nat, node: Link)
    requires k < |ring| && Distinct(ring) && node !in ring
    ensures Distinct(With(ring, k, node))
  {
    WithAt(ring, k, node);
  }

  lemma DistinctWithout(ring: seq<Link>, k: nat)
    requires k < |ring| && Distinct(ring)
    ensures Distinct(Without(ring, k))
  {
    WithoutAt(ring, k);
  }

  /** __list_add, between the links at places k and k + 1 of the ring. */
  method Insert(node: Link, prev: Link, next: Link, ghost ring: seq<Link>, ghost k: nat)
    requires Circular(ring) && k < |ring| && prev == ring[k] && next == Succ(ring, k) && node !in ring
    modifies node, prev, next
    ensures Circular(With(ring, k, node))
  {
    LinkedForward(ring, k, node, Nexts(ring));
    LinkedBackward(ring, k, node, Prevs(ring));
    DistinctWith(ring, k, node);
    Others(ring, k);
    Others(ring, After(|ring|, k));
    SuccAfter(ring, k);
    hide Forward, Backward, Distinct, With, Insertion, Succ, After;
    ghost var ns, ps := Nexts(ring), Prevs(ring);
    next.prev := node;
    node.next := next;
    node.prev := prev;
    prev.next := node;
    assert Nexts(ring) == ns[k := node];
    assert Prevs(ring) == ps[After(|ring|, k) := node];
    LinksWith(ring, k, node);
    NonEmpty(ring, k, node);
  }

  lemma NonEmpty(ring: seq<Link>, k: nat, node: Link)
    requires k < |ring|
    ensures |With(ring, k, node)| > 0 && (k > 0 ==> |Without(ring, k)| > 0)
  {
  }

  lemma UnlinkedForward(ring: seq<Link>, k: nat, nexts: seq<Link?>)
    requires 0 < k < |ring| && Forward(ring, nexts)
    ensures Forward(Without(ring, k), Deletion(nexts[k - 1 := Succ(ring, k)][k := null], k))
  {
  }

  lemma UnlinkedBackward(ring: seq<Link>, k: nat, prevs: seq<Link?>)
    requires 0 < k < |ring| && Backward(ring, prevs)
    ensures Backward(Without(ring, k), Deletion(prevs[After(|ring|, k) := ring[k - 1]][k := null], k))
  {
  }

  lemma Neighbours(ring: seq<Link>, k: nat)
    requires Circular(ring) && k < |ring|
    ensures ring[k].next == Succ(ring, k) && ring[k].prev == Pred(ring, k)
  {
  }

  /** list_del, of the link at place k > 0 of the ring. */
  method Remove(entry: Link, ghost ring: seq<Link>, ghost k: nat)
    requires Circular(ring) && 0 < k < |ring| && entry == ring[k]
    modifies ring
    ensures Circular(Without(ring, k))
    ensures entry.next == null && entry.prev == null
  {
    UnlinkedForward(ring, k, Nexts(ring));
    UnlinkedBackward(ring, k, Prevs(ring));
    DistinctWithout(ring, k);
    Neighbours(ring, k);
    assert Pred(ring, k) == ring[k - 1];
    Others(ring, k);
    Others(ring, k - 1);
    Others(ring, After(|ring|, k));
    SuccAfter(ring, k);
    hide Forward, Backward, Distinct, Without, Deletion, Succ, Pred, After;
    ghost var ns, ps := Nexts(ring), Prevs(ring);
    var prev: Link, next: Link := entry.prev, entry.next;
    next.prev := prev;
    prev.next := next;
    entry.next := null;
    entry.prev := null;
    assert Nexts(ring) == ns[k - 1 := next][k := null];
    assert Prevs(ring) == ps[After(|ring|, k) := prev][k := null];
    LinksWithout(ring, k);
    NonEmpty(ring, k, entry);
  }

  class PagesBlockList {
    const head: Link
    ghost var ring: seq<Link>

    ghost predicate Valid()
      reads this, ring
    {
      |ring| > 0 && ring[0] == head && Circular(ring)
    }

    /** The blocks in list order. */
    ghost function Contents(): seq<PagesBlock>
      reads this
      requires |ring| > 0
    {
      Blocks(ring[1..])
    }

    /** INIT_LIST_HEAD. */
    constructor (head: Link)
      modifies head
      ensures Valid() && this.head == head && Contents() == []
    {
      this.head, ring := head, [head];
      new;
      head.next := head;
      head.prev := head;
    }

    /** list_empty. */
    method IsEmpty() returns (e: bool)
      requires Valid()
      ensures e <==> Contents() == []
    {
      hide Forward, Backward;
      Neighbours(ring, 0);
      e := head.next == head;
    }

    /** list_add. */
    method Add(node: Link)
      requires Valid() && node !in ring
      modifies this, ring, node
      ensures Valid() && Contents() == [node.block] + old(Contents())
    {
      hide Forward, Backward, Distinct;
      Neighbours(ring, 0);
      Insert(node, head, head.next, ring, 0);
      ring := With(ring, 0, node);
    }

    /** list_add_tail, by which add_pages_block queues a block. */
    method AddTail(node: Link)
      requires Valid() && node !in ring
      modifies this, ring, node
      ensures Valid() && Contents() == old(Contents()) + [node.block]
    {
      ghost var k := |ring| - 1;
      hide Forward, Backward, Distinct;
      Neighbours(ring, 0);
      Insert(node, head.prev, head, ring, k);
      ring := With(ring, k, node);
    }

    /** list_for_each_entry: the entries are met in list order, each once. */
    method ForEach() returns (met: seq<PagesBlock>)
      requires Valid()
      ensures met == Contents()
    {
      hide Forward, Backward;
      met := [];
      ghost var i := 1;
      Neighbours(ring, 0);
      var pos := head.next;
      while pos != head
        invariant 1 <= i <= |ring| && pos == Succ(ring, i - 1)
        invariant met == Blocks(ring[1..i])
        decreases |ring| - i
      {
        met := met + [pos.block];
        Neighbours(ring, i);
        pos := pos.next;
        i := i + 1;
      }
    }

    /** list_del, of the entry at place i. */
    method Delete(entry: Link, ghost i: nat)
      requires Valid() && 0 < i < |ring| && entry == ring[i]
      modifies this, ring
      ensures Valid() && ring == Without(old(ring), i)
      ensures forall k :: 0 <= k < |ring| ==> ring[k] in old(ring)
    {
      hide Forward, Backward, Distinct;
      Remove(entry, ring, i);
      ring := Without(ring, i);
    }

    /**
     * The list_for_each_entry_safe loop of sys_brk: the entries for addresses in [lo, hi) are deleted
     * while the list is walked, and exactly the others stay, in their order.
     */
    method DeleteRange(lo: nat, hi: nat)
      requires Valid()
      modifies this, ring
      ensures Valid() && Contents() == Outside(old(Contents()), lo, hi)
    {
      hide Circular, Passed, Without, Blocks;
      ghost var was := Contents();
      ghost var links := ring;
      ghost var i := 1;        // the place of `pos` in the ring
      ghost var done := 0;     // the entries passed
      Neighbours(ring, 0);
      var pos := head.next;
      PosNext(1);
      var n := pos.next;
      PassedNone(ring, lo, hi);
      while pos != head
        invariant Valid() && 1 <= i <= |ring| && pos == Succ(ring, i - 1)
        invariant n == if i < |ring| then Succ(ring, i) else Succ(ring, 0)
        invariant forall k :: 0 <= k < |ring| ==> ring[k] in links
        invariant Passed(ring, i, was, done, lo, hi)
        decreases |was| - done
      {
        PassedBlock(ring, i, was, done, lo, hi);
        if lo <= pos.block.userVirtAddr && pos.block.userVirtAddr < hi {
          PassedDeleted(ring, i, was, done, lo, hi);
          Delete(pos, i);
        } else {
          PassedKept(ring, i, was, done, lo, hi);
          i := i + 1;
        }
        done := done + 1;
        pos := n;
        PosNext(i);
        n := n.next;
      }
      AtHead(i);
      PassedAll(ring, was, done, lo, hi);
    }

    lemma AtHead(i: nat)
      requires Valid() && 1 <= i <= |ring| && Succ(ring, i - 1) == head
      ensures i == |ring|
    {
    }

    lemma PosNext(i: nat)
      requires Valid() && 1 <= i <= |ring|
      ensures Succ(ring, i - 1).next == if i < |ring| then Succ(ring, i) else Succ(ring, 0)
    {
    }
  }

  /** The walk has passed the first `done` blocks of `was`, and stands at place `i` of the ring. */
  ghost predicate Passed(ring: seq<Link>, i: nat, was: seq<PagesBlock>, done: nat, lo: nat, hi: nat) {
    && 1 <= i <= |ring| && done <= |was|
    && Blocks(ring[1..i]) == Outside(was[..done], lo, hi)
    && Blocks(ring[i..]) == was[done..]
  }

  lemma PassedNone(ring: seq<Link>, lo: nat, hi: nat)
    requires |ring| > 0
    ensures Passed(ring, 1, Blocks(ring[1..]), 0, lo, hi)
  {
  }

  lemma PassedBlock(ring: seq<Link>, i: nat, was: seq<PagesBlock>, done: nat, lo: nat, hi: nat)
    requires Passed(ring, i, was, done, lo, hi) && i < |ring|
    ensures done < |was| && ring[i].block == was[done]
  {
    assert Blocks(ring[i..])[0] == ring[i].block;
  }

  lemma PassedDeleted(ring: seq<Link>, i: nat, was: seq<PagesBlock>, done: nat, lo: nat, hi: nat)
    requires Passed(ring, i, was, done, lo, hi) && i < |ring| && lo <= ring[i].block.userVirtAddr < hi
    ensures Passed(Without(ring, i), i, was, done + 1, lo, hi)
    ensures |Without(ring, i)| == |ring| - 1 && Without(ring, i)[0] == ring[0] && Succ(Without(ring, i), i - 1) == Succ(ring, i)
  {
    PassedBlock(ring, i, was, done, lo, hi);
    OutsideNext(was, done, lo, hi);
    var r := Without(ring, i);
    assert r[1..i] == ring[1..i] && r[i..] == ring[i..][1..];
  }

  lemma PassedKept(ring: seq<Link>, i: nat, was: seq<PagesBlock>, done: nat, lo: nat, hi: nat)
    requires Passed(ring, i, was, done, lo, hi) && i < |ring| && !(lo <= ring[i].block.userVirtAddr < hi)
    ensures Passed(ring, i + 1, was, done + 1, lo, hi)
  {
    PassedBlock(ring, i, was, done, lo, hi);
    OutsideNext(was, done, lo, hi);
    assert ring[1..i + 1] == ring[1..i] + [ring[i]] && ring[i + 1..] == ring[i..][1..];
  }

  lemma PassedAll(ring: seq<Link>, was: seq<PagesBlock>, done: nat, lo: nat, hi: nat)
    requires Passed(ring, |ring|, was, done, lo, hi)
    ensures Blocks(ring[1..]) == Outside(was, lo, hi)
  {
    assert |was[done..]| == 0;
    assert was[..done] == was && ring[1..|ring|] == ring[1..];
  }

  lemma OutsideNext(bs: seq<PagesBlock>, k: nat, lo: nat, hi: nat)
    requires k < |bs|
    ensures Outside(bs[..k + 1], lo, hi) ==
            Outside(bs[..k], lo, hi) + if lo <= bs[k].userVirtAddr < hi then [] else [bs[k]]
  {
    assert bs[..k + 1] == bs[..k] + [bs[k]] && [bs[k]][1..] == [];
    OutsideAppend(bs[..k], [bs[k]], lo, hi);
  }
}
