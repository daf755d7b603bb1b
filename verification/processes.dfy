/**
 * Any number of processes on one page pool (kernel/isr.c, kernel/sched.c): they fault, move their breaks, fork
 * and exit in any order. No process touches another's pages, and the pool loses exactly what each left behind.
 */
module Processes {
  import opened Machine
  import opened PageTable
  import opened VmBlocks
  import opened AddressSpace
  import opened VmSetup
  import opened Lives
  import opened Fork
  import opened Families

  // ---------------------------------------------------------------------------------------
  // The system and its steps

  datatype Act = Does(event: Event) | Forks(slotOk: bool, kmalloc: Kmalloc) | Exits

  datatype Step = Step(pid: nat, act: Act)

  /** A live process: its space now and when it came into being, and what happened to it since. */
  datatype Process = Process(space: Space, first: Space, events: seq<Event>, pages: seq<nat>)

  /** The machine, the live processes, the next process number, and the pages left behind by those that exited. */
  datatype System = System(ram: Ram, usage: seq<bool>, procs: map<nat, Process>, next: nat, left: set<nat>)

  /** The pages left behind by a process that exits now. */
  ghost function LeftBy(p: Process): set<nat>
    requires |p.pages| <= |p.events|
  {
    Leftovers(p.events, p.pages, p.first)
  }

  /** Process `q` is where it was, on the machine as it is now. */
  ghost predicate Waits(s: System, t: System, q: nat) {
    q in s.procs && q in t.procs && t.procs[q] == s.procs[q].(space := Aside(s.procs[q].space, t.ram, t.usage))
  }

  ghost predicate OthersWait(s: System, t: System, pid: nat) {
    forall q :: q in s.procs && q != pid ==> Waits(s, t, q)
  }

  /** A fault or a sys_brk of one process: no frame in use by anything else changes. */
  ghost predicate DidEvent(s: System, pid: nat, e: Event, page: nat, t: System) {
    && pid in s.procs && InDomain(s.procs[pid].space, e)
    && t.procs.Keys == s.procs.Keys && t.next == s.next && t.left == s.left && OthersWait(s, t, pid)
    && (var p, p' := s.procs[pid], t.procs[pid];
        && Handled(p.space, e, page, p'.space) && p'.space.ram == t.ram && p'.space.usage == t.usage
        && p' == Process(p'.space, p.first, p.events + [e], p.pages + [page])
        && Keeps(s.ram, t.ram, UsedSet(s.usage) - Mine(p.space)))
  }

  /** A fork that succeeded: the child has the next number and a copy of every area. */
  ghost predicate DidFork(s: System, pid: nat, t: System) {
    && pid in s.procs && s.next !in s.procs
    && t.procs.Keys == s.procs.Keys + {s.next} && t.next == s.next + 1 && t.left == s.left
    && (forall q :: q in s.procs ==> Waits(s, t, q))
    && Keeps(s.ram, t.ram, UsedSet(s.usage))
    && (var p, c := s.procs[pid].space, t.procs[s.next];
        && c == Process(c.space, c.space, [], []) && c.space.ram == t.ram && c.space.usage == t.usage && IsChild(p, c.space))
  }

  /** The child of `p`, just forked. */
  ghost predicate IsChild(p: Space, c: Space) {
    && c.startBrk == p.startBrk && c.brk == p.brk && c.lost == [] && c.leaked == [] && c.stale == HeapList(c.mmap, c.startBrk)
    && Clones(p.ram, c.ram, p.pgDir, UsedSet(p.usage), UsedSet(c.usage), p.mmap, c.mmap, |p.mmap|)
    && AllLoadable(c.mmap) && MappedFirst(c.ram, c.pgDir, c.mmap, |c.mmap|)
    && ForkLedger(UsedSet(c.usage), UsedSet(p.usage), c.tabs, c.mmap)
  }

  /** A fork that failed, for one of three reasons, changes nothing in use. */
  ghost predicate ForkFailed(s: System, pid: nat, slotOk: bool, kmalloc: Kmalloc, t: System) {
    && pid in s.procs && t.procs.Keys == s.procs.Keys && t.next == s.next && t.left == s.left
    && (forall q :: q in s.procs ==> Waits(s, t, q))
    && t.usage == s.usage && Keeps(s.ram, t.ram, UsedSet(s.usage))
    && MayFail(slotOk, kmalloc, UsedSet(s.usage), s.procs[pid].space.mmap)
  }

  /** exit_mm: the process's blocks and page table are freed, and what its events left behind stays. */
  ghost predicate DidExit(s: System, pid: nat, t: System) {
    && pid in s.procs && t.procs.Keys == s.procs.Keys - {pid} && t.next == s.next && OthersWait(s, t, pid)
    && (var p := s.procs[pid];
        && |p.pages| <= |p.events|
        && t.left == s.left + LeftBy(p) && t.ram == s.ram
        && UsedSet(t.usage) == UsedSet(s.usage) - Mine(p.space) + LeftBy(p))
  }

  ghost predicate Next(s: System, step: Step, page: nat, t: System) {
    match step.act
    case Does(e) => DidEvent(s, step.pid, e, page, t)
    case Forks(slotOk, kmalloc) => DidFork(s, step.pid, t) || ForkFailed(s, step.pid, slotOk, kmalloc, t)
    case Exits => DidExit(s, step.pid, t)
  }

  // ---------------------------------------------------------------------------------------
  // The invariant

  /** A process is in order beside everything that is not its own, can be forked, and its books are right. */
  ghost predicate ProcessOk(p: Process, world: set<nat>) {
    && p.space.pgDir != NULL
    && Intact(p.space, UsedSet(p.space.usage) - Mine(p.space)) && Shape(p.space.ram, p.space.pgDir, world, p.space.mmap)
    && |p.events| == |p.pages| && OnePageEach(p.first)
    && Accounted(p.space, p.first, p.events, p.pages, |p.pages|)
  }

  ghost predicate Own(s: System, q: nat, f: nat) { q in s.procs && f in Mine(s.procs[q].space) }

  /** `world` is what was in use before the first process; every other page in use has one owner, or was left behind. */
  ghost predicate Partitioned(s: System, world: set<nat>) {
    var used := UsedSet(s.usage);
    && (forall f :: f in used <==> f in world || f in s.left || exists q :: Own(s, q, f))
    && (forall f, q :: Own(s, q, f) ==> f !in world && f !in s.left)
    && (forall f, q, r :: Own(s, q, f) && Own(s, r, f) ==> q == r)
    && world !! s.left
  }

  ghost predicate SystemOk(s: System, world: set<nat>) {
    && (forall q :: q in s.procs ==> q < s.next && s.procs[q].space.ram == s.ram && s.procs[q].space.usage == s.usage)
    && (forall q :: q in s.procs ==> ProcessOk(s.procs[q], world))
    && Partitioned(s, world)
  }

  // ---------------------------------------------------------------------------------------
  // Every step keeps it

  /** A process that waited while pages not its own changed. */
  lemma WaiterOk(s: System, t: System, world: set<nat>, q: nat, kept: set<nat>)
    requires SystemOk(s, world) && Waits(s, t, q) && Keeps(s.ram, t.ram, kept)
    requires Mine(s.procs[q].space) <= kept && Mine(s.procs[q].space) <= UsedSet(t.usage)
    ensures ProcessOk(t.procs[q], world) && Mine(t.procs[q].space) == Mine(s.procs[q].space)
  {
    hide UsedSet, Mine, Keeps, Intact, Shape, Accounted, Partitioned;
    var p := s.procs[q];
    assert ProcessOk(p, world);
    Survives(p.space, UsedSet(s.usage) - Mine(p.space), t.ram, t.usage, kept);
    MineAside(p.space, t.ram, t.usage);
    AccountAside(p.space, t.procs[q].space, p.first, p.events, p.pages, |p.pages|);
  }

  lemma MineAside(s: Space, ram: Ram, usage: seq<bool>)
    ensures Mine(Aside(s, ram, usage)) == Mine(s)
  {
  }

  /** The books are about the break and three lists of blocks only. */
  lemma AccountAside(s: Space, t: Space, first: Space, events: seq<Event>, pages: seq<nat>, n: nat)
    requires n <= |pages| <= |events| && Accounted(s, first, events, pages, n)
    requires t.startBrk == s.startBrk && t.brk == s.brk && t.lost == s.lost && t.stale == s.stale && t.leaked == s.leaked
    ensures Accounted(t, first, events, pages, n)
  {
    hide WasLeft, Untouched, BrkAt;
  }

  /** What happened so far is not changed by what happens next. */
  lemma {:induction false} BrkPrefix(events: seq<Event>, e: Event, startBrk: nat, brk: nat, n: nat)
    requires n <= |events|
    ensures BrkAt(events + [e], startBrk, brk, n) == BrkAt(events, startBrk, brk, n)
  {
    if n > 0 { BrkPrefix(events, e, startBrk, brk, n - 1); }
  }

  lemma CoveredPrefix(events: seq<Event>, e: Event, startBrk: nat, brk: nat, j: nat, n: nat, p: nat)
    requires n <= |events|
    ensures CoveredIn(events + [e], startBrk, brk, j, n, p) <==> CoveredIn(events, startBrk, brk, j, n, p)
  {
    hide BrkAt, UpperPageAddr;
    forall k: nat | k < n ensures Covered(events + [e], startBrk, brk, k, p) <==> Covered(events, startBrk, brk, k, p) {
      BrkPrefix(events, e, startBrk, brk, k);
    }
  }

  lemma LeftPrefix(events: seq<Event>, e: Event, pages: seq<nat>, page: nat, startBrk: nat, brk: nat, n: nat,
          b: PagesBlock)
    requires n <= |pages| <= |events|
    ensures WasLeft(events + [e], pages + [page], startBrk, brk, n, b) <==> WasLeft(events, pages, startBrk, brk, n, b)
  {
    hide CoveredIn, PageAddr;
    forall k: nat | k < n
      ensures LeftBehind(events + [e], pages + [page], startBrk, brk, n, k) <==> LeftBehind(events, pages, startBrk, brk, n, k)
      ensures LostBlock(events + [e], pages + [page], k) == LostBlock(events, pages, k)
    {
      CoveredPrefix(events, e, startBrk, brk, k + 1, n, PageAddr(events[k].addr));
    }
    hide LeftBehind, LostBlock;
  }

  lemma AccountPrefix(s: Space, first: Space, events: seq<Event>, e: Event, pages: seq<nat>, page: nat)
    requires |pages| == |events| && Accounted(s, first, events, pages, |pages|)
    ensures Accounted(s, first, events + [e], pages + [page], |pages|)
  {
    hide WasLeft, CoveredIn, BrkAt;
    var n, b0, k0 := |pages|, first.startBrk, first.brk;
    BrkPrefix(events, e, b0, k0, n);
    forall b: PagesBlock
      ensures WasLeft(events + [e], pages + [page], b0, k0, n, b) <==> WasLeft(events, pages, b0, k0, n, b)
      ensures Untouched(events + [e], b0, k0, n, b) <==> Untouched(events, b0, k0, n, b)
    {
      LeftPrefix(events, e, pages, page, b0, k0, n, b);
      CoveredPrefix(events, e, b0, k0, 0, n, b.userVirtAddr);
    }
  }

  /** The process that handled an event, if its space is in order afterwards. */
  lemma ActorOk(s: System, t: System, world: set<nat>, pid: nat, e: Event, page: nat)
    requires SystemOk(s, world) && DidEvent(s, pid, e, page, t)
    requires Intact(t.procs[pid].space, UsedSet(s.usage) - Mine(s.procs[pid].space))
    ensures ProcessOk(t.procs[pid], world)
    ensures Mine(t.procs[pid].space) == UsedSet(t.usage) - (UsedSet(s.usage) - Mine(s.procs[pid].space))
    ensures UsedSet(s.usage) - Mine(s.procs[pid].space) <= UsedSet(t.usage)
  {
    hide UsedSet, Mine, Keeps, Intact, Shape, Accounted, Partitioned, Orderly, InDomain, Handled, OthersWait,
         OnePageEach;
    var p, p' := s.procs[pid], t.procs[pid];
    assert ProcessOk(p, world);
    IntactParts(p.space, UsedSet(s.usage) - Mine(p.space));
    SameProcess(p.space, e, page, p'.space);
    ShapeStep(p.space, e, page, p'.space, world);
    MineApart(p'.space, UsedSet(s.usage) - Mine(p.space));
    AccountPrefix(p.space, p.first, p.events, e, p.pages, page);
    assert p'.events[|p.pages|] == e && p'.pages[|p.pages|] == page;
    AccountNext(p.space, p'.space, p.first, p'.events, p'.pages, |p.pages|);
  }

  lemma SameProcess(s: Space, e: Event, page: nat, t: Space)
    requires Handled(s, e, page, t)
    ensures t.pgDir == s.pgDir
  {
  }

  lemma IntactParts(s: Space, base: set<nat>)
    requires Intact(s, base)
    ensures Orderly(s)
  {
  }

  /** A fault or a sys_brk. */
  lemma EventKeeps(s: System, t: System, world: set<nat>, pid: nat, e: Event, page: nat)
    requires SystemOk(s, world) && DidEvent(s, pid, e, page, t)
    requires Intact(t.procs[pid].space, UsedSet(s.usage) - Mine(s.procs[pid].space))
    ensures SystemOk(t, world)
  {
    hide UsedSet, Mine, Keeps, Intact, Shape, Accounted, Orderly, Handled, InDomain, ProcessOk;
    ActorOk(s, t, world, pid, e, page);
    var base := UsedSet(s.usage) - Mine(s.procs[pid].space);
    forall q | q in s.procs && q != pid
      ensures ProcessOk(t.procs[q], world) && Mine(t.procs[q].space) == Mine(s.procs[q].space)
    {
      ApartFrom(s, world, q, pid);
      assert Waits(s, t, q);
      WaiterOk(s, t, world, q, base);
    }
    EventPartition(s, t, world, pid);
  }

  lemma ApartFrom(s: System, world: set<nat>, q: nat, pid: nat)
    requires Partitioned(s, world) && q in s.procs && pid in s.procs && q != pid
    ensures Mine(s.procs[q].space) <= UsedSet(s.usage) - Mine(s.procs[pid].space)
  {
    hide UsedSet, Mine;
    forall f | f in Mine(s.procs[q].space) ensures f in UsedSet(s.usage) && f !in Mine(s.procs[pid].space) {
      assert Own(s, q, f);
      assert Own(s, pid, f) <==> f in Mine(s.procs[pid].space);
    }
  }

  lemma EventPartition(s: System, t: System, world: set<nat>, pid: nat)
    requires Partitioned(s, world) && pid in s.procs && t.procs.Keys == s.procs.Keys && t.left == s.left
    requires forall q :: q in s.procs && q != pid ==> Mine(t.procs[q].space) == Mine(s.procs[q].space)
    requires Mine(t.procs[pid].space) == UsedSet(t.usage) - (UsedSet(s.usage) - Mine(s.procs[pid].space))
    requires UsedSet(s.usage) - Mine(s.procs[pid].space) <= UsedSet(t.usage)
    ensures Partitioned(t, world)
  {
    hide UsedSet, Mine;
    var used0, used1 := UsedSet(s.usage), UsedSet(t.usage);
    forall q, f ensures Own(t, q, f) <==> if q == pid then f in used1 && (f in used0 ==> Own(s, pid, f)) else Own(s, q, f) {}
    forall f | f in used0 && !Own(s, pid, f) ensures f in used1 {}
    hide Own;
    forall f, q | Own(s, q, f) ensures f in used0 && (q != pid ==> !Own(s, pid, f) && f in used1) {}
    forall f | f in world || f in s.left ensures f in used1 && !Own(t, pid, f) {}
    forall f | f in used1 && f !in world && f !in t.left ensures exists q :: Own(t, q, f) {
      if !Own(t, pid, f) {
        var q :| Own(s, q, f);
        assert Own(t, q, f);
      }
    }
  }

  lemma OwnUsed(s: System, world: set<nat>, q: nat)
    requires Partitioned(s, world) && q in s.procs
    ensures Mine(s.procs[q].space) <= UsedSet(s.usage)
  {
    hide UsedSet, Mine;
    forall f | f in Mine(s.procs[q].space) ensures f in UsedSet(s.usage) { assert Own(s, q, f); }
  }

  /** A fork: the pages taken are the child's. */
  lemma ForkKeeps(s: System, t: System, world: set<nat>, pid: nat)
    requires SystemOk(s, world) && DidFork(s, pid, t)
    requires var c := t.procs[s.next].space;
             c.pgDir != NULL && Intact(c, UsedSet(s.usage)) && Shape(c.ram, c.pgDir, world, c.mmap) && OnePageEach(c)
    ensures SystemOk(t, world)
  {
    hide UsedSet, Mine, Keeps, Intact, Shape, Accounted, ProcessOk, OnePageEach, IsChild;
    var c := t.procs[s.next].space;
    MineApart(c, UsedSet(s.usage));
    NothingYet([], [], c);
    assert ProcessOk(t.procs[s.next], world) by { NewProcess(c, UsedSet(s.usage), world); }
    forall q | q in s.procs ensures ProcessOk(t.procs[q], world) && Mine(t.procs[q].space) == Mine(s.procs[q].space) {
      OwnUsed(s, world, q);
      assert Waits(s, t, q);
      WaiterOk(s, t, world, q, UsedSet(s.usage));
    }
    ForkPartition(s, t, world);
  }

  lemma NewProcess(c: Space, used0: set<nat>, world: set<nat>)
    requires c.pgDir != NULL && Intact(c, used0) && Shape(c.ram, c.pgDir, world, c.mmap) && OnePageEach(c)
    requires used0 == UsedSet(c.usage) - Mine(c)
    ensures ProcessOk(Process(c, c, [], []), world)
  {
    hide UsedSet, Mine, Intact, Shape, Accounted, OnePageEach;
    NothingYet([], [], c);
  }

  lemma ForkPartition(s: System, t: System, world: set<nat>)
    requires Partitioned(s, world) && s.next !in s.procs && t.procs.Keys == s.procs.Keys + {s.next} && t.left == s.left
    requires forall q :: q in s.procs ==> Mine(t.procs[q].space) == Mine(s.procs[q].space)
    requires Mine(t.procs[s.next].space) == UsedSet(t.usage) - UsedSet(s.usage) && UsedSet(s.usage) <= UsedSet(t.usage)
    ensures Partitioned(t, world)
  {
    hide UsedSet, Mine;
    var used0, used1 := UsedSet(s.usage), UsedSet(t.usage);
    forall q, f ensures Own(t, q, f) <==> if q == s.next then f in used1 && f !in used0 else Own(s, q, f) {}
    forall f ensures !Own(s, s.next, f) {}
    hide Own;
    forall f, q | Own(s, q, f) ensures f in used0 {}
    forall f | f in used1 && f !in world && f !in t.left ensures exists q :: Own(t, q, f) {
      if f in used0 {
        var q :| Own(s, q, f);
        assert Own(t, q, f);
      } else {
        assert Own(t, s.next, f);
      }
    }
  }

  /** A fork that failed. */
  lemma FailedKeeps(s: System, t: System, world: set<nat>, pid: nat, slotOk: bool, kmalloc: Kmalloc)
    requires SystemOk(s, world) && ForkFailed(s, pid, slotOk, kmalloc, t)
    ensures SystemOk(t, world)
  {
    hide UsedSet, Mine, Keeps, ProcessOk, OutOfPages, Refused;
    forall q | q in s.procs ensures ProcessOk(t.procs[q], world) && Mine(t.procs[q].space) == Mine(s.procs[q].space) {
      OwnUsed(s, world, q);
      assert Waits(s, t, q);
      WaiterOk(s, t, world, q, UsedSet(s.usage));
    }
    forall q, f ensures Own(t, q, f) <==> Own(s, q, f) {}
    hide Own;
    forall f | f in UsedSet(t.usage) && f !in world && f !in t.left ensures exists q :: Own(t, q, f) {
      var q :| Own(s, q, f);
      assert Own(t, q, f);
    }
  }

  /** What a process leaves behind is some of its own pages. */
  lemma LeftIsMine(p: Process, world: set<nat>)
    requires ProcessOk(p, world)
    ensures LeftBy(p) <= Mine(p.space)
    ensures LeftBy(p) == (set b | b in p.space.leaked + p.space.lost :: b.linearAddr)
    ensures OnePageEach(p.space)
  {
    hide UsedSet, Intact, Shape, Accounted, Leftovers, OwnedPages, BlocksPages;
    LeftoversAre(p.space, p.first, p.events, p.pages);
    var xs := p.space.leaked + p.space.lost;
    OnlyOnePages(p.space);
    forall b | b in xs ensures b.linearAddr in BlocksPages(xs) { InBlocks(xs, b.linearAddr); }
  }

  /** An exit: the pages left behind no longer belong to anyone. */
  lemma ExitKeeps(s: System, t: System, world: set<nat>, pid: nat)
    requires SystemOk(s, world) && DidExit(s, pid, t)
    ensures SystemOk(t, world)
  {
    hide UsedSet, Mine, ProcessOk, LeftBy;
    var p := s.procs[pid];
    LeftIsMine(p, world);
    KeepsSelf(s.ram, UsedSet(s.usage));
    forall q | q in s.procs && q != pid ensures ProcessOk(t.procs[q], world) && Mine(t.procs[q].space) == Mine(s.procs[q].space) {
      OwnUsed(s, world, q);
      ApartFrom(s, world, q, pid);
      assert Waits(s, t, q);
      WaiterOk(s, t, world, q, UsedSet(s.usage));
    }
    ExitPartition(s, t, world, pid, LeftBy(p));
  }

  lemma ExitPartition(s: System, t: System, world: set<nat>, pid: nat, left: set<nat>)
    requires Partitioned(s, world) && pid in s.procs && t.procs.Keys == s.procs.Keys - {pid} && t.left == s.left + left
    requires forall q :: q in s.procs && q != pid ==> Mine(t.procs[q].space) == Mine(s.procs[q].space)
    requires left <= Mine(s.procs[pid].space) && UsedSet(t.usage) == UsedSet(s.usage) - Mine(s.procs[pid].space) + left
    ensures Partitioned(t, world)
  {
    hide UsedSet, Mine;
    var used0, used1 := UsedSet(s.usage), UsedSet(t.usage);
    forall q, f ensures Own(t, q, f) <==> q != pid && Own(s, q, f) {}
    forall f ensures f in used1 <==> (f in used0 && !Own(s, pid, f)) || f in left {}
    forall f | f in left ensures Own(s, pid, f) {}
    hide Own;
    forall f, q | Own(s, q, f) ensures f in used0 {}
    forall f | f in used1 && f !in world && f !in t.left ensures exists q :: Own(t, q, f) {
      var q :| Own(s, q, f);
      assert Own(t, q, f);
    }
  }

  // ---------------------------------------------------------------------------------------
  // The code, step by step

  /** Task `t` is the process with space `p`. */
  ghost predicate Stands(t: Task, p: Space)
    reads t
  {
    && t.pgDir == p.pgDir && t.mmap == p.mmap && t.startBrk == p.startBrk && t.brk == p.brk && t.tabs == p.tabs
    && t.lost == p.lost && t.stale == p.stale && t.leaked == p.leaked
  }

  /** The tasks of the kernel are the processes of `s`. */
  ghost predicate Shows(m: PageMemory, tasks: map<nat, Task>, next: nat, s: System)
    reads m, m.usage, tasks.Values
  {
    && m.Valid() && s.ram == m.ram && s.usage == m.usage[..] && next == s.next && tasks.Keys == s.procs.Keys
    && (forall q :: q in tasks ==> Stands(tasks[q], s.procs[q].space))
    && (forall q, r :: q in tasks && r in tasks && q != r ==> tasks[q] != tasks[r])
  }

  lemma StandsAside(t: Task, p: Space, ram: Ram, usage: seq<bool>)
    requires Stands(t, p)
    ensures Stands(t, Aside(p, ram, usage))
  {
  }

  lemma StandsView(m: PageMemory, t: Task)
    ensures Stands(t, View(m, t))
  {
  }

  /** All processes, on the machine as it is now. */
  ghost function AllAside(procs: map<nat, Process>, ram: Ram, usage: seq<bool>): map<nat, Process> {
    map q | q in procs :: procs[q].(space := Aside(procs[q].space, ram, usage))
  }

  /** The system with all processes waiting. */
  ghost function Moved(s: System, ram: Ram, usage: seq<bool>): System { System(ram, usage, AllAside(s.procs, ram, usage), s.next, s.left) }

  /** The spaces of all processes: `now` for process `pid`, for the others what they were. */
  ghost predicate Onward(s: System, pid: nat, now: Space, t: System) {
    && t.ram == now.ram && t.usage == now.usage && t.procs.Keys == s.procs.Keys + {pid} && t.procs[pid].space == now
    && forall q :: q in s.procs && q != pid ==> t.procs[q].space == Aside(s.procs[q].space, now.ram, now.usage)
  }

  ghost function AfterEvent(s: System, pid: nat, e: Event, page: nat, now: Space): System
    requires pid in s.procs
  {
    var p := s.procs[pid];
    System(now.ram, now.usage, AllAside(s.procs, now.ram, now.usage)[pid := Process(now, p.first, p.events + [e], p.pages + [page])], s.next, s.left)
  }

  lemma EventDone(s: System, pid: nat, e: Event, page: nat, now: Space)
    requires pid in s.procs && InDomain(s.procs[pid].space, e) && Handled(s.procs[pid].space, e, page, now)
    requires Keeps(s.ram, now.ram, UsedSet(s.usage) - Mine(s.procs[pid].space))
    ensures DidEvent(s, pid, e, page, AfterEvent(s, pid, e, page, now))
    ensures Onward(s, pid, now, AfterEvent(s, pid, e, page, now)) && AfterEvent(s, pid, e, page, now).next == s.next
  {
    hide InDomain, Handled, Keeps, UsedSet, Mine;
  }

  ghost function AfterFork(s: System, c: Space): System {
    System(c.ram, c.usage, AllAside(s.procs, c.ram, c.usage)[s.next := Process(c, c, [], [])], s.next + 1, s.left)
  }

  lemma ForkDone(s: System, pid: nat, c: Space)
    requires pid in s.procs && s.next !in s.procs && IsChild(s.procs[pid].space, c) && Keeps(s.ram, c.ram, UsedSet(s.usage))
    ensures DidFork(s, pid, AfterFork(s, c)) && Onward(s, s.next, c, AfterFork(s, c)) && AfterFork(s, c).next == s.next + 1
  {
    hide IsChild, Keeps, UsedSet;
  }

  lemma ForkRefused(s: System, pid: nat, slotOk: bool, kmalloc: Kmalloc, ram: Ram, full: seq<bool>, calls: nat)
    requires pid in s.procs && Keeps(s.ram, ram, UsedSet(s.usage))
    requires var vs := s.procs[pid].space.mmap;
             || !slotOk || (calls <= 1 + CallsForAll(vs, |vs|) && Refused(kmalloc, 0, calls)) || OutOfPages(full, UsedSet(s.usage), vs)
    ensures ForkFailed(s, pid, slotOk, kmalloc, Moved(s, ram, s.usage))
  {
    hide Keeps, UsedSet, Refused, OutOfPages;
  }

  lemma TaskOk(m: PageMemory, tasks: map<nat, Task>, next: nat, s: System, world: set<nat>, pid: nat)
    requires SystemOk(s, world) && Shows(m, tasks, next, s) && pid in tasks
    ensures s.next !in s.procs && View(m, tasks[pid]) == s.procs[pid].space
    ensures var p, base := s.procs[pid], UsedSet(s.usage) - Mine(s.procs[pid].space);
            && SpaceOk(m, tasks[pid], base) && Intact(p.space, base) && tasks[pid].pgDir != NULL && ProcessOk(p, world)
            && Shape(m.ram, tasks[pid].pgDir, world, tasks[pid].mmap) && world <= base
  {
    hide UsedSet, Mine, Intact, Shape, Accounted, OnePageEach;
    var base := UsedSet(s.usage) - Mine(s.procs[pid].space);
    assert ProcessOk(s.procs[pid], world);
    IntactIff(m, tasks[pid], base);
    forall f | f in world ensures f in base { assert Own(s, pid, f) <==> f in Mine(s.procs[pid].space); }
  }

  /** An event of one process, as the system sees it. */
  method TaskEvent(m: PageMemory, task: Task, pid: nat, e: Event, ghost s: System, ghost base: set<nat>,
          ghost world: set<nat>)
    returns (hung: bool, ghost page: nat, ghost t: System)
    requires SystemOk(s, world) && pid in s.procs && View(m, task) == s.procs[pid].space && base == UsedSet(s.usage) - Mine(s.procs[pid].space)
    requires SpaceOk(m, task, base) && s.ram == m.ram && InDomain(s.procs[pid].space, e)
    modifies m`ram, m.usage, task
    ensures m.Valid()
    ensures hung ==> PoolExhausted(m.usage[..]) && e.Fault?
    ensures !hung ==> SystemOk(t, world) && DidEvent(s, pid, e, page, t) && Onward(s, pid, View(m, task), t) && t.next == s.next
  {
    hide SystemOk, SpaceOk, Intact, UsedSet, Mine, PoolExhausted, Handled, InDomain, Keeps, DidEvent, AfterEvent,
         Kills, Onward;
    ghost var p := s.procs[pid];
    var r, frame := HandleEvent(m, task, e, base);
    hung := r == Hangs;
    page, t := frame, s;
    if !hung {
      StepKeepsFrames(m, task, base, p.space, e, page);
      IntactIff(m, task, base);
      t := AfterEvent(s, pid, e, page, View(m, task));
      EventDone(s, pid, e, page, View(m, task));
      OnwardThere(s, pid, View(m, task), t);
      EventKeeps(s, t, world, pid, e, page);
    }
  }

  lemma OnwardThere(s: System, pid: nat, now: Space, t: System)
    requires Onward(s, pid, now, t)
    ensures pid in t.procs && t.procs[pid].space == now && t.ram == now.ram && t.usage == now.usage && t.procs.Keys == s.procs.Keys + {pid}
  {
    hide Aside;
  }

  /** The tasks that had no part in it stand where they stood. */
  lemma OthersStand(tasks: map<nat, Task>, s: System, pid: nat, now: Space, t: System)
    requires Onward(s, pid, now, t)
    requires forall q :: q in tasks && q != pid ==> q in s.procs && Stands(tasks[q], s.procs[q].space)
    ensures forall q :: q in tasks && q != pid ==> Stands(tasks[q], t.procs[q].space)
  {
    hide Stands, Aside;
    forall q | q in tasks && q != pid ensures Stands(tasks[q], t.procs[q].space) {
      StandsAside(tasks[q], s.procs[q].space, now.ram, now.usage);
    }
  }

  /** An event of one process, on the whole system. */
  method DoEvent(m: PageMemory, tasks: map<nat, Task>, next: nat, pid: nat, e: Event, ghost s: System,
          ghost world: set<nat>)
    returns (hung: bool, ghost page: nat, ghost t: System)
    requires SystemOk(s, world) && Shows(m, tasks, next, s) && pid in tasks && InDomain(s.procs[pid].space, e)
    modifies m`ram, m.usage, tasks[pid]
    ensures m.Valid()
    ensures hung ==> PoolExhausted(m.usage[..]) && e.Fault?
    ensures !hung ==> SystemOk(t, world) && Shows(m, tasks, next, t) && DidEvent(s, pid, e, page, t)
  {
    hide SystemOk, SpaceOk, Intact, UsedSet, Mine, PoolExhausted, InDomain, Shape, ProcessOk, DidEvent, Onward, Stands;
    TaskOk(m, tasks, next, s, world, pid);
    hung, page, t := TaskEvent(m, tasks[pid], pid, e, s, UsedSet(s.usage) - Mine(s.procs[pid].space), world);
    if !hung {
      OnwardThere(s, pid, View(m, tasks[pid]), t);
      OthersStand(tasks, s, pid, View(m, tasks[pid]), t);
      StandsView(m, tasks[pid]);
    }
  }

  /** The new child is in order and in shape. */
  lemma ChildOk(m: PageMemory, child: Task, p: Space, used0: set<nat>, base: set<nat>, world: set<nat>)
    requires m.Valid() && TreeOk(m.ram, child.pgDir, child.tabs) && GoodVmas(child.mmap) && used0 == UsedSet(p.usage)
    requires IsChild(p, View(m, child)) && Keeps(p.ram, m.ram, used0)
    requires Intact(p, base) && Shape(p.ram, p.pgDir, world, p.mmap) && world <= used0
    ensures var c := View(m, child); Intact(c, used0) && Shape(c.ram, c.pgDir, world, c.mmap) && OnePageEach(c)
  {
    IntactParts(p, base);
    OrderlyParts(p);
    hide SpaceOk, Intact, Orderly, UsedSet, Shape, TreeOk, Clones, ForkLedger, HeapList, AllLoadable, MappedFirst,
         GoodVmas, Layout, BelowBrk, HeapInside, OnePageEach;
    ChildInOrder(m, child, p.ram, p.pgDir, used0, p.mmap, p.lost);
    ChildShape(m, child.pgDir, child.mmap, p.ram, p.pgDir, used0, p.mmap, world);
    IntactIff(m, child, used0);
  }

  /** The fork succeeded: the system with the child in it is in order. */
  lemma ForkGood(m: PageMemory, child: Task, s: System, pid: nat, base: set<nat>, world: set<nat>)
    requires SystemOk(s, world) && pid in s.procs && s.next !in s.procs
    requires m.Valid() && TreeOk(m.ram, child.pgDir, child.tabs) && GoodVmas(child.mmap) && child.pgDir != NULL
    requires IsChild(s.procs[pid].space, View(m, child)) && Keeps(s.ram, m.ram, UsedSet(s.usage))
    requires Intact(s.procs[pid].space, base) && Shape(s.ram, s.procs[pid].space.pgDir, world, s.procs[pid].space.mmap) && world <= UsedSet(s.usage)
    ensures DidFork(s, pid, AfterFork(s, View(m, child))) && Onward(s, s.next, View(m, child), AfterFork(s, View(m, child)))
    ensures AfterFork(s, View(m, child)).next == s.next + 1
    ensures SystemOk(AfterFork(s, View(m, child)), world)
  {
    assert s.procs[pid].space.ram == s.ram && s.procs[pid].space.usage == s.usage;
    hide SystemOk, IsChild, Keeps, UsedSet, Intact, Shape, DidFork, AfterFork, TreeOk, GoodVmas, OnePageEach;
    ForkDone(s, pid, View(m, child));
    ChildOk(m, child, s.procs[pid].space, UsedSet(s.usage), base, world);
    ForkKeeps(s, AfterFork(s, View(m, child)), world, pid);
  }

  /** A fork by one process, as the system sees it. */
  method TaskFork(m: PageMemory, task: Task, pid: nat, slotOk: bool, kmalloc: Kmalloc, ghost s: System,
          ghost base: set<nat>, ghost world: set<nat>)
    returns (r: ForkOutcome, child: Task, ghost t: System)
    requires SystemOk(s, world) && pid in s.procs && View(m, task) == s.procs[pid].space && s.next !in s.procs
    requires SpaceOk(m, task, base) && s.ram == m.ram && s.usage == m.usage[..] && Shape(m.ram, task.pgDir, world, task.mmap) && world <= base
    modifies m`ram, m.usage
    ensures m.Valid() && fresh(child)
    ensures r.Hung? ==> PoolExhausted(m.usage[..])
    ensures r.Forked? ==> SystemOk(t, world) && DidFork(s, pid, t) && Onward(s, s.next, View(m, child), t) && t.next == s.next + 1
    ensures r.Failed? ==> SystemOk(t, world) && ForkFailed(s, pid, slotOk, kmalloc, t) && t == Moved(s, m.ram, m.usage[..])
  {
    hide SpaceOk, Intact, UsedSet, PoolExhausted, Keeps, Shape, Forkable, Readable, TreeOk, Clones, ForkLedger,
         HeapList, AllLoadable, MappedFirst, GoodVmas, OutOfPages, Granted, Refused, SystemOk, DidFork, ForkFailed,
         AfterFork, Moved, Onward;
    MayFork(m, task, base, world);
    IntactIff(m, task, base);
    ghost var full, calls;
    r, child, full, calls := SysFork(m, task, slotOk, kmalloc);
    t := s;
    if r.Failed? {
      t := Moved(s, m.ram, m.usage[..]);
      ForkRefused(s, pid, slotOk, kmalloc, m.ram, full, calls);
      FailedKeeps(s, t, world, pid, slotOk, kmalloc);
    } else if r.Forked? {
      t := AfterFork(s, View(m, child));
      ForkGood(m, child, s, pid, base, world);
    }
  }

  /** A fork by one process, on the whole system. */
  method DoFork(m: PageMemory, tasks: map<nat, Task>, next: nat, pid: nat, slotOk: bool, kmalloc: Kmalloc,
          ghost s: System, ghost world: set<nat>)
    returns (r: ForkOutcome, tasks': map<nat, Task>, next': nat, ghost t: System)
    requires SystemOk(s, world) && Shows(m, tasks, next, s) && pid in tasks
    modifies m`ram, m.usage
    ensures m.Valid()
    ensures r.Hung? ==> PoolExhausted(m.usage[..])
    ensures r.Forked? ==> SystemOk(t, world) && Shows(m, tasks', next', t) && DidFork(s, pid, t) && tasks'.Keys == tasks.Keys + {next}
    ensures r.Forked? ==> fresh(tasks'[next]) && forall q :: q in tasks ==> tasks'[q] == tasks[q]
    ensures r.Failed? ==> SystemOk(t, world) && Shows(m, tasks', next', t) && ForkFailed(s, pid, slotOk, kmalloc, t) && tasks' == tasks
  {
    hide SystemOk, SpaceOk, Intact, UsedSet, Mine, PoolExhausted, Shape, ProcessOk, DidFork, ForkFailed, Onward,
         Stands, Aside;
    TaskOk(m, tasks, next, s, world, pid);
    var child;
    r, child, t := TaskFork(m, tasks[pid], pid, slotOk, kmalloc, s, UsedSet(s.usage) - Mine(s.procs[pid].space), world);
    tasks', next' := tasks, next;
    if r.Failed? {
      forall q | q in tasks ensures Stands(tasks[q], t.procs[q].space) { StandsAside(tasks[q], s.procs[q].space, m.ram, m.usage[..]); }
    } else if r.Forked? {
      tasks', next' := tasks[next := child], next + 1;
      OnwardThere(s, next, View(m, child), t);
      OthersStand(tasks, s, next, View(m, child), t);
      StandsView(m, child);
    }
  }

  lemma LogsAgree(p: Process, world: set<nat>)
    requires ProcessOk(p, world)
    ensures |p.events| == |p.pages|
  {
  }

  lemma ExitDone(s: System, pid: nat, usage: seq<bool>)
    requires pid in s.procs && |s.procs[pid].pages| <= |s.procs[pid].events|
    requires UsedSet(usage) == UsedSet(s.usage) - Mine(s.procs[pid].space) + LeftBy(s.procs[pid])
    ensures DidExit(s, pid, System(s.ram, usage, AllAside(s.procs, s.ram, usage) - {pid}, s.next, s.left + LeftBy(s.procs[pid])))
  {
    hide UsedSet, Mine, LeftBy;
  }

  /** The exit of one process, on the whole system. */
  method DoExit(m: PageMemory, tasks: map<nat, Task>, next: nat, pid: nat, ghost s: System, ghost world: set<nat>)
    returns (tasks': map<nat, Task>, ghost t: System)
    requires SystemOk(s, world) && Shows(m, tasks, next, s) && pid in tasks
    modifies m.usage
    ensures SystemOk(t, world) && Shows(m, tasks', next, t) && DidExit(s, pid, t)
    ensures tasks'.Keys == tasks.Keys - {pid} && forall q :: q in tasks' ==> tasks'[q] == tasks[q]
  {
    hide SystemOk, SpaceOk, Intact, UsedSet, Mine, Shape, LeftBy, OnePageEach, Accounted, DidExit, ProcessOk, Stands,
         Aside;
    ghost var p, base := s.procs[pid], UsedSet(s.usage) - Mine(s.procs[pid].space);
    TaskOk(m, tasks, next, s, world, pid);
    LeftIsMine(p, world);
    ExitSpace(m, tasks[pid], base);
    tasks' := map q | q in tasks && q != pid :: tasks[q];
    LogsAgree(p, world);
    t := System(m.ram, m.usage[..], AllAside(s.procs, m.ram, m.usage[..]) - {pid}, s.next, s.left + LeftBy(p));
    ExitDone(s, pid, m.usage[..]);
    ExitKeeps(s, t, world, pid);
    forall q | q in tasks' ensures Stands(tasks'[q], t.procs[q].space) { StandsAside(tasks[q], s.procs[q].space, m.ram, m.usage[..]); }
  }

  // ---------------------------------------------------------------------------------------
  // Any interleaving

  /** The first |pages| steps were taken, one after the other. */
  ghost predicate IsTrace(trace: seq<System>, steps: seq<Step>, pages: seq<nat>) {
    && |trace| == |pages| + 1 && |pages| <= |steps|
    && forall k :: 0 <= k < |pages| ==> Next(trace[k], steps[k], pages[k], trace[k + 1])
  }

  /** The step can be taken: the process lives, and its event is in the domain. */
  ghost predicate Possible(s: System, step: Step) {
    step.pid in s.procs && (step.act.Does? ==> InDomain(s.procs[step.pid].space, step.act.event))
  }

  /** Only faults and forks take pages, so only they can find the pool exhausted and stop the kernel. */
  predicate MayStop(step: Step) { step.act.Forks? || (step.act.Does? && step.act.event.Fault?) }

  lemma TraceGrows(trace: seq<System>, steps: seq<Step>, pages: seq<nat>, page: nat, t: System)
    requires IsTrace(trace, steps, pages) && |pages| < |steps| && Next(trace[|pages|], steps[|pages|], page, t)
    ensures IsTrace(trace + [t], steps, pages + [page])
  {
    hide Next;
  }

  /** While others take steps, a process stays as it is: its pages keep their contents and its page table its translations. */
  lemma {:induction false} Isolation(trace: seq<System>, steps: seq<Step>, pages: seq<nat>, world: set<nat>, q: nat,
          i: nat, j: nat)
    requires IsTrace(trace, steps, pages) && i <= j <= |pages| && q in trace[i].procs
    requires forall k :: i <= k <= j ==> SystemOk(trace[k], world)
    requires forall k :: i <= k < j ==> steps[k].pid != q
    ensures q in trace[j].procs && trace[j].procs[q] == trace[i].procs[q].(space := Aside(trace[i].procs[q].space, trace[j].ram, trace[j].usage))
    ensures Keeps(trace[i].ram, trace[j].ram, Mine(trace[i].procs[q].space) + world)
    ensures forall w: nat :: LeafEntry(trace[j].ram, trace[i].procs[q].space.pgDir, w) == LeafEntry(trace[i].ram, trace[i].procs[q].space.pgDir, w)
    decreases j
  {
    hide UsedSet, Mine, Keeps, LeafEntry, ProcessOk, Next;
    var p := trace[i].procs[q];
    if i == j {
      KeepsSelf(trace[i].ram, Mine(p.space) + world);
      assert p == p.(space := Aside(p.space, trace[i].ram, trace[i].usage));
    } else {
      Isolation(trace, steps, pages, world, q, i, j - 1);
      MineAside(p.space, trace[j - 1].ram, trace[j - 1].usage);
      BystanderStep(trace[j - 1], steps[j - 1], pages[j - 1], trace[j], world, q);
      KeepsTrans(trace[i].ram, trace[j - 1].ram, trace[j].ram, Mine(p.space) + world, Mine(p.space) + world);
    }
  }

  /** One step of another process. */
  lemma BystanderStep(s: System, step: Step, page: nat, t: System, world: set<nat>, q: nat)
    requires SystemOk(s, world) && Next(s, step, page, t) && q in s.procs && step.pid != q
    ensures Waits(s, t, q) && Keeps(s.ram, t.ram, Mine(s.procs[q].space) + world)
    ensures forall w: nat :: LeafEntry(t.ram, s.procs[q].space.pgDir, w) == LeafEntry(s.ram, s.procs[q].space.pgDir, w)
  {
    hide UsedSet, Mine, LeafEntry, TreeOk, Handled, InDomain, IsChild, OutOfPages, Refused, LeftBy, Intact, Shape,
         Accounted, OnePageEach;
    var p := s.procs[q].space;
    assert ProcessOk(s.procs[q], world);
    OwnUsed(s, world, q);
    ApartFrom(s, world, q, step.pid);
    forall f | f in world ensures f in UsedSet(s.usage) && f !in Mine(s.procs[step.pid].space) {
      assert Own(s, step.pid, f) <==> f in Mine(s.procs[step.pid].space);
    }
    TreeOf(p, UsedSet(s.usage) - Mine(p));
    SameTables(s.ram, t.ram, p.pgDir, p.tabs, Mine(p) + world);
  }

  lemma TreeOf(s: Space, base: set<nat>)
    requires Intact(s, base)
    ensures TreeOk(s.ram, s.pgDir, s.tabs) && s.tabs.Keys <= Mine(s)
  {
  }

  /** Step `k` is the exit of a process that leaves page `f` behind. */
  ghost predicate LeavesAt(trace: seq<System>, steps: seq<Step>, k: nat, f: nat)
    requires k < |trace| && k < |steps|
  {
    && steps[k].act.Exits? && steps[k].pid in trace[k].procs
    && (var p := trace[k].procs[steps[k].pid]; |p.pages| <= |p.events| && f in LeftBy(p))
  }

  /** The pages left behind are those of the processes that exited. */
  lemma {:induction false} LeftIff(trace: seq<System>, steps: seq<Step>, pages: seq<nat>, n: nat, f: nat)
    requires IsTrace(trace, steps, pages) && n <= |pages| && trace[0].left == {}
    ensures f in trace[n].left <==> exists k: nat :: k < n && LeavesAt(trace, steps, k, f)
  {
    hide UsedSet, Mine, LeftBy, IsChild, OthersWait, Keeps, Handled, InDomain, OutOfPages, Refused;
    if n > 0 {
      LeftIff(trace, steps, pages, n - 1, f);
      assert Next(trace[n - 1], steps[n - 1], pages[n - 1], trace[n]);
      assert f in trace[n].left <==> f in trace[n - 1].left || LeavesAt(trace, steps, n - 1, f);
      hide LeavesAt, Next;
      if f in trace[n - 1].left {
        var k: nat :| k < n - 1 && LeavesAt(trace, steps, k, f);
        assert k < n;
      }
    }
  }

  /** What happened to the process decides that it leaves nothing behind. */
  ghost predicate LeavesNothing(p: Process) { |p.pages| <= |p.events| && Clean(p.events, p.pages, p.first) }

  /** Every exit among the first `n` steps is that of a process that leaves nothing behind. */
  ghost predicate AllClean(trace: seq<System>, steps: seq<Step>, n: nat)
    requires n <= |steps| && n < |trace|
  {
    forall k: nat :: k < n && steps[k].act.Exits? ==> steps[k].pid in trace[k].procs && LeavesNothing(trace[k].procs[steps[k].pid])
  }

  lemma NothingLeft(p: Process)
    requires |p.pages| <= |p.events|
    ensures LeftBy(p) == {} <==> Clean(p.events, p.pages, p.first)
  {
    hide LeftBehind, Untouched;
    var e, g, f := p.events, p.pages, p.first;
    if !Clean(e, g, f) {
      if k: nat :| k < |g| && LeftBehind(e, g, f.startBrk, f.brk, |g|, k) {
        assert g[k] in LeftBy(p);
      } else if b :| b in f.lost && Untouched(e, f.startBrk, f.brk, |g|, b) {
        assert b.linearAddr in LeftBy(p);
      } else if b :| b in f.stale && !Untouched(e, f.startBrk, f.brk, |g|, b) {
        assert b.linearAddr in LeftBy(p);
      } else {
        assert f.leaked[0].linearAddr in LeftBy(p);
      }
    }
  }

  lemma {:induction false} AllCleanIff(trace: seq<System>, steps: seq<Step>, pages: seq<nat>, n: nat)
    requires IsTrace(trace, steps, pages) && n <= |pages| && trace[0].left == {}
    ensures trace[n].left == {} <==> AllClean(trace, steps, n)
  {
    hide UsedSet, Mine, LeftBy, Clean, IsChild, OthersWait, Keeps, Handled, InDomain, OutOfPages, Refused;
    if n > 0 {
      AllCleanIff(trace, steps, pages, n - 1);
      assert Next(trace[n - 1], steps[n - 1], pages[n - 1], trace[n]);
      if steps[n - 1].act.Exits? { NothingLeft(trace[n - 1].procs[steps[n - 1].pid]); }
      hide LeavesNothing;
      assert AllClean(trace, steps, n) <==>
        AllClean(trace, steps,
          n - 1) && (steps[n - 1].act.Exits? ==> LeavesNothing(trace[n - 1].procs[steps[n - 1].pid]));
    }
  }

  /** One program, just started: process 0. */
  ghost function OneProcess(c: Space): System { System(c.ram, c.usage, map[0 := Process(c, c, [], [])], 1, {}) }

  /** The system when a program has just been started. */
  ghost predicate JustStarted(u0: seq<bool>, vs: seq<Vma>, startBrk: nat, brk: nat, s: System) {
    0 in s.procs && s == OneProcess(s.procs[0].space) && Started(u0, vs, startBrk, brk, s.procs[0].space)
  }

  lemma OneProcessOk(c: Space, world: set<nat>)
    requires c.pgDir != NULL && Intact(c, world) && Shape(c.ram, c.pgDir, world, c.mmap) && OnePageEach(c)
    ensures SystemOk(OneProcess(c), world)
  {
    hide UsedSet, Mine, Intact, Shape, OnePageEach, Accounted, ProcessOk;
    MineApart(c, world);
    NewProcess(c, world, world);
    assert forall q, f :: Own(OneProcess(c), q, f) <==> q == 0 && f in Mine(c);
    assert forall f :: Own(OneProcess(c), 0, f) <==> f in Mine(c);
  }

  lemma NobodyLeft(s: System, world: set<nat>)
    requires SystemOk(s, world) && s.procs == map[]
    ensures UsedSet(s.usage) == world + s.left && world !! s.left
  {
    hide UsedSet;
  }

  datatype Ending = AllTaken | Impossible | KernelStopped | NoProgram

  lemma DomainIs(m: PageMemory, tasks: map<nat, Task>, next: nat, s: System, world: set<nat>, pid: nat, e: Event)
    requires SystemOk(s, world) && Shows(m, tasks, next, s) && pid in tasks
    ensures pid in s.procs
    ensures var t := tasks[pid]; InDomain(s.procs[pid].space, e) <==> MayHappen(m.ram, t.pgDir, t.mmap, t.startBrk, t.brk, e)
  {
    hide MayHappen, Partitioned, ProcessOk;
  }

  /** One step of the kernel. */
  method TakeStep(m: PageMemory, tasks: map<nat, Task>, next: nat, step: Step, ghost s: System, ghost world: set<nat>)
    returns (ending: Ending, tasks': map<nat, Task>, next': nat, ghost page: nat, ghost t: System)
    requires SystemOk(s, world) && Shows(m, tasks, next, s)
    modifies m`ram, m.usage, tasks.Values
    ensures m.Valid() && !ending.NoProgram?
    ensures ending.Impossible? <==> !Possible(s, step)
    ensures ending.Impossible? ==> tasks' == tasks && next' == next && Shows(m, tasks, next, s)
    ensures ending.KernelStopped? ==> PoolExhausted(m.usage[..]) && Possible(s, step) && MayStop(step)
    ensures ending.AllTaken? ==> SystemOk(t, world) && Shows(m, tasks', next', t) && Next(s, step, page, t)
    ensures ending.AllTaken? ==> forall q :: q in tasks' ==> (q in tasks && tasks'[q] == tasks[q]) || fresh(tasks'[q])
  {
    hide SystemOk, UsedSet, PoolExhausted, DidEvent, DidFork, ForkFailed, DidExit, InDomain, MayHappen, Shows;
    ShowsMachine(m, tasks, next, s);
    tasks', next', page, t := tasks, next, NULL, s;
    if step.pid !in tasks {
      return Impossible, tasks, next, page, t;
    }
    ending := AllTaken;
    match step.act {
      case Does(e) =>
        var task := tasks[step.pid];
        DomainIs(m, tasks, next, s, world, step.pid, e);
        if !MayHappen(m.ram, task.pgDir, task.mmap, task.startBrk, task.brk, e) {
          return Impossible, tasks, next, page, t;
        }
        var hung;
        hung, page, t := DoEvent(m, tasks, next, step.pid, e, s, world);
        if hung { ending := KernelStopped; }
      case Forks(slotOk, kmalloc) =>
        var r;
        r, tasks', next', t := DoFork(m, tasks, next, step.pid, slotOk, kmalloc, s, world);
        if r.Hung? { ending := KernelStopped; }
      case Exits =>
        tasks', t := DoExit(m, tasks, next, step.pid, s, world);
    }
  }

  /**
   * A program starts, and it and its descendants take any steps in any order. In every state on the way each
   * process is in order and no page has two owners; when all have exited, the pages in use are those of before and
   * what the processes left behind, and nothing is left if and only if each of them was clean.
   */
  method RunSystem(m: PageMemory, vs: seq<Vma>, startBrk: nat, brk: nat, steps: seq<Step>)
    returns (ending: Ending, ghost trace: seq<System>, ghost pages: seq<nat>)
    requires m.Valid() && InitialAreas(vs, startBrk, brk) && StartAreas(m.ram, m.Used(), vs)
    modifies m`ram, m.usage
    ensures m.Valid()
    ensures ending.NoProgram? || ending.KernelStopped? ==> PoolExhausted(m.usage[..])
    ensures !ending.NoProgram? ==> IsTrace(trace, steps, pages) && JustStarted(old(m.usage[..]), vs, startBrk, brk, trace[0])
    ensures !ending.NoProgram? ==> forall k :: 0 <= k <= |pages| ==> SystemOk(trace[k], old(m.Used()))
    ensures ending.AllTaken? ==> |pages| == |steps|
    ensures ending.Impossible? ==> |pages| < |steps| && !Possible(trace[|pages|], steps[|pages|])
    ensures ending.KernelStopped? ==> |pages| < |steps| && Possible(trace[|pages|], steps[|pages|]) && MayStop(steps[|pages|])
    ensures ending.AllTaken? || ending.Impossible? ==> trace[|pages|].ram == m.ram && trace[|pages|].usage == m.usage[..]
    ensures (ending.AllTaken? || ending.Impossible?) && trace[|pages|].procs == map[] ==>
              && m.Used() == old(m.Used()) + trace[|pages|].left
              && (m.usage[..] == old(m.usage[..]) <==> AllClean(trace, steps, |pages|))
  {
    hide UsedSet, PoolExhausted, SystemOk, SpaceOk, Next, Possible, MayStop, Started, AllClean, Shows, StartAreas, Shape,
         MappedFirst, AllLoadable, JustStarted, OneProcess;
    trace, pages := [], [];
    ghost var u0, world := m.usage[..], m.Used();
    ghost var ram0 := m.ram;
    var first := CreateSpace(m, vs, startBrk, brk);
    if first == null {
      return NoProgram, trace, pages;
    }
    var tasks: map<nat, Task> := map[0 := first];
    var next := 1;
    StartShape(ram0, m.ram, first.pgDir, world, vs);
    FirstTask(m, first, world);
    Begins(m, first, u0, vs, startBrk, brk);
    trace := [OneProcess(View(m, first))];
    ending := AllTaken;
    var i := 0;
    while i < |steps|
      invariant i <= |steps| && m.Valid() && ending.AllTaken? && |pages| == i
      invariant IsTrace(trace, steps, pages) && JustStarted(u0, vs, startBrk, brk, trace[0])
      invariant forall k :: 0 <= k <= i ==> SystemOk(trace[k], world)
      invariant Shows(m, tasks, next, trace[i]) && forall q :: q in tasks ==> fresh(tasks[q])
    {
      ghost var page, t;
      ending, tasks, next, page, t := TakeStep(m, tasks, next, steps[i], trace[i], world);
      if !ending.AllTaken? {
        break;
      }
      TraceGrows(trace, steps, pages, page, t);
      trace, pages := trace + [t], pages + [page];
      i := i + 1;
    }
    ghost var last := trace[|pages|];
    if !ending.KernelStopped? { ShowsMachine(m, tasks, next, last); }
    StartsClean(u0, vs, startBrk, brk, trace[0]);
    if !ending.KernelStopped? && last.procs == map[] {
      NobodyLeft(last, world);
      AllCleanIff(trace, steps, pages, |pages|);
      if last.left == {} { UsedInjective(m.usage[..], u0); }
    }
  }

  lemma Begins(m: PageMemory, t: Task, u0: seq<bool>, vs: seq<Vma>, startBrk: nat, brk: nat)
    requires t.mmap == vs && t.startBrk == startBrk && t.brk == brk && t.lost == [] && t.stale == [] && t.leaked == []
    requires m.Used() == UsedSet(u0) + t.tabs.Keys && AllLoadable(vs) && MappedFirst(m.ram, t.pgDir, vs, |vs|)
    ensures JustStarted(u0, vs, startBrk, brk, OneProcess(View(m, t)))
  {
    hide UsedSet, AllLoadable, MappedFirst;
  }

  lemma StartsClean(u0: seq<bool>, vs: seq<Vma>, startBrk: nat, brk: nat, s: System)
    requires JustStarted(u0, vs, startBrk, brk, s)
    ensures s.left == {}
  {
    hide Started;
  }

  lemma ShowsMachine(m: PageMemory, tasks: map<nat, Task>, next: nat, s: System)
    requires Shows(m, tasks, next, s)
    ensures m.Valid() && s.ram == m.ram && s.usage == m.usage[..] && tasks.Keys == s.procs.Keys
  {
  }

  lemma FirstTask(m: PageMemory, t: Task, world: set<nat>)
    requires SpaceOk(m, t, world) && t.pgDir != NULL && Shape(m.ram, t.pgDir, world, t.mmap)
    requires t.lost == [] && t.stale == [] && t.leaked == []
    ensures SystemOk(OneProcess(View(m, t)), world) && Shows(m, map[0 := t], 1, OneProcess(View(m, t)))
  {
    hide SpaceOk, Intact, Shape, SystemOk;
    IntactIff(m, t, world);
    OneProcessOk(View(m, t), world);
  }
}
