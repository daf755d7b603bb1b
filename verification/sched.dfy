/**
 * The scheduler: get_next_proc and schedule (kernel/sched.c), and the accounting of the timer
 * tick (kernel/isr.c). Task slot `i` runs on core i % NUM_CPUS only.
 */
module Scheduler {

  const MAX_NUM_PROCESSES := 32
  const NUM_CPUS := 2
  /** No task is ready: the core runs its swapper task, pid 0. */
  const SWAPPER := -1

  /** struct task_struct as far as scheduling goes. */
  datatype Task = Task(inUse: bool, running: bool, stime: nat, utime: nat) {
    function Time(): nat { stime + utime }
    predicate Ready() { inUse && running }
  }

  /** The task slots, and what each core runs: a slot or SWAPPER. */
  datatype State = State(tasks: seq<Task>, current: seq<int>)

  predicate Shape(s: State) {
    && |s.tasks| == MAX_NUM_PROCESSES && |s.current| == NUM_CPUS
    && forall c :: 0 <= c < NUM_CPUS ==> -1 <= s.current[c] < MAX_NUM_PROCESSES
  }

  /** Slot `i` competes for core `core`. */
  predicate Candidate(tasks: seq<Task>, core: nat, i: int) {
    0 <= i < |tasks| && i % NUM_CPUS == core && tasks[i].Ready()
  }

  /** The task with the least run time among the core's ready ones, the lowest slot on a tie; SWAPPER if none is ready. */
  ghost predicate IsNext(tasks: seq<Task>, core: nat, r: int) {
    && (r == SWAPPER ==> forall j :: !Candidate(tasks, core, j))
    && (r != SWAPPER ==>
          && Candidate(tasks, core, r)
          && forall j :: Candidate(tasks, core, j) ==> tasks[r].Time() < tasks[j].Time() || (tasks[r].Time() == tasks[j].Time() && r <= j))
  }

  lemma NextUnique(tasks: seq<Task>, core: nat, r: int, q: int)
    requires IsNext(tasks, core, r) && IsNext(tasks, core, q)
    ensures r == q
  {
    if r != SWAPPER { assert Candidate(tasks, core, r); }
    if q != SWAPPER { assert Candidate(tasks, core, q); }
  }

  /** What being the next task means, slot by slot. */
  lemma NextMeans(tasks: seq<Task>, core: nat, r: int)
    requires IsNext(tasks, core, r) && core < NUM_CPUS
    ensures r == -1 || (0 <= r < |tasks| && r % 2 == core && tasks[r].inUse && tasks[r].running)
    ensures forall j :: 0 <= j < |tasks| && j % 2 == core && tasks[j].inUse && tasks[j].running ==>
              && r != -1
              && var mine, other := tasks[r].stime + tasks[r].utime, tasks[j].stime + tasks[j].utime;
                 mine < other || (mine == other && r <= j)
  {
    forall j | 0 <= j < |tasks| && j % 2 == core && tasks[j].inUse && tasks[j].running ensures Candidate(tasks, core, j) { }
  }

  /** The slot the scan of get_next_proc ends with, from slot `i` on, `best` being the best so far. */
  function Scan(tasks: seq<Task>, i: nat, best: int): int
    requires -1 <= best < |tasks|
    decreases |tasks| - i
  {
    if i >= |tasks| then best
    else Scan(tasks, i + NUM_CPUS, if tasks[i].Ready() && (best == -1 || tasks[best].Time() > tasks[i].Time()) then i else best)
  }

  function Pick(tasks: seq<Task>, core: nat): int {
    Scan(tasks, core, -1)
  }

  /** `best` is the pick among the slots below `i`. */
  ghost predicate BestBelow(tasks: seq<Task>, core: nat, i: nat, best: int) {
    && -1 <= best < |tasks|
    && (best == -1 ==> forall j :: Candidate(tasks, core, j) ==> j >= i)
    && (best != -1 ==>
          && Candidate(tasks, core, best) && best < i
          && forall j :: Candidate(tasks, core, j) && j < i ==>
               tasks[best].Time() < tasks[j].Time() || (tasks[best].Time() == tasks[j].Time() && best <= j))
  }

  lemma {:induction false} ScanIsNext(tasks: seq<Task>, core: nat, i: nat, best: int)
    requires core < NUM_CPUS && i % NUM_CPUS == core && BestBelow(tasks, core, i, best)
    ensures IsNext(tasks, core, Scan(tasks, i, best))
    decreases |tasks| - i
  {
    if i < |tasks| {
      var b := if tasks[i].Ready() && (best == -1 || tasks[best].Time() > tasks[i].Time()) then i else best;
      assert BestBelow(tasks, core, i + NUM_CPUS, b) by {
        forall j | Candidate(tasks, core, j) && j < i + NUM_CPUS ensures j < i || j == i { }
      }
      ScanIsNext(tasks, core, i + NUM_CPUS, b);
    }
  }

  lemma PickIsNext(tasks: seq<Task>, core: nat)
    requires core < NUM_CPUS
    ensures IsNext(tasks, core, Pick(tasks, core))
  {
    ScanIsNext(tasks, core, core, -1);
  }

  lemma {:induction false} ScanRange(tasks: seq<Task>, i: nat, best: int)
    requires -1 <= best < |tasks|
    ensures -1 <= Scan(tasks, i, best) < |tasks| || |tasks| == 0
    decreases |tasks| - i
  {
    if i < |tasks| {
      ScanRange(tasks, i + NUM_CPUS,
        if tasks[i].Ready() && (best == -1 || tasks[best].Time() > tasks[i].Time()) then i else best);
    }
  }

  // ---------------------------------------------------------------------------------------
  // Events

  datatype Event =
    | Tick(core: nat, userMode: bool)      // a timer interrupt
    | Yield(core: nat)                     // a call of schedule
    | SetTask(slot: nat, task: Task)       // a task is created, put to sleep, woken or freed

  predicate Enabled(s: State, e: Event) {
    && Shape(s)
    && match e
       case Tick(c, _) => c < NUM_CPUS
       case Yield(c) => c < NUM_CPUS
       case SetTask(i, _) => i < MAX_NUM_PROCESSES
  }

  function Schedule(s: State, core: nat): (t: State)
    requires Shape(s) && core < NUM_CPUS
    ensures Shape(t)
  {
    ScanRange(s.tasks, core, -1);
    s.(current := s.current[core := Pick(s.tasks, core)])
  }

  /** One more tick for slot `i`. */
  function Charged(tasks: seq<Task>, i: int, userMode: bool): (r: seq<Task>)
    ensures |r| == |tasks|
  {
    if 0 <= i < |tasks| then
      tasks[i := if userMode then tasks[i].(utime := tasks[i].utime + 1) else tasks[i].(stime := tasks[i].stime + 1)]
    else tasks
  }

  /** The tick is charged to the running task; user mode and the swapper are preempted, kernel mode is not. */
  function Next(s: State, e: Event): (t: State)
    requires Enabled(s, e)
    ensures Shape(t)
  {
    match e
    case Tick(c, userMode) =>
      var t := s.(tasks := Charged(s.tasks, s.current[c], userMode));
      if userMode || s.current[c] == SWAPPER then Schedule(t, c) else t
    case Yield(c) => Schedule(s, c)
    case SetTask(i, task) => s.(tasks := s.tasks[i := task])
  }

  function Run(s: State, es: seq<Event>): (t: State)
    requires Shape(s)
    ensures Shape(t)
    decreases |es|
  {
    if es == [] then s else Run(if Enabled(s, es[0]) then Next(s, es[0]) else s, es[1..])
  }

  // ---------------------------------------------------------------------------------------
  // No task on two cores

  predicate OwnCore(s: State) {
    Shape(s) && forall c :: 0 <= c < NUM_CPUS ==> s.current[c] == SWAPPER || s.current[c] % NUM_CPUS == c
  }

  lemma StepOwnCore(s: State, e: Event)
    requires OwnCore(s) && Enabled(s, e)
    ensures OwnCore(Next(s, e))
  {
    if e.Tick? || e.Yield? {
      var tasks := if e.Tick? then Charged(s.tasks, s.current[e.core], e.userMode) else s.tasks;
      PickIsNext(tasks, e.core);
    }
  }

  /** Over any run, no task is current on two cores. */
  lemma {:induction false} NeverShared(s: State, es: seq<Event>)
    requires OwnCore(s)
    ensures OwnCore(Run(s, es))
    ensures var t := Run(s, es);
            forall c, d :: 0 <= c < d < NUM_CPUS && t.current[c] != SWAPPER ==> t.current[c] != t.current[d]
    decreases |es|
  {
    if es != [] {
      if Enabled(s, es[0]) {
        StepOwnCore(s, es[0]);
        NeverShared(Next(s, es[0]), es[1..]);
      } else {
        NeverShared(s, es[1..]);
      }
    }
  }

  // ---------------------------------------------------------------------------------------
  // Starvation

  /** The event is a user-mode tick on `core`, or concerns other cores and their tasks only. */
  predicate Steady(e: Event, core: nat) {
    match e
    case Tick(c, userMode) => c == core ==> userMode
    case Yield(_) => true
    case SetTask(i, _) => i % NUM_CPUS != core
  }

  /** The core runs the task get_next_proc would choose now. */
  ghost predicate Scheduled(s: State, core: nat) {
    OwnCore(s) && core < NUM_CPUS && IsNext(s.tasks, core, s.current[core])
  }

  /** How many ticks slot `j` may take before a task with run time `t` must be preferred to it. */
  function Lead(tasks: seq<Task>, core: nat, i: nat, t: nat, j: nat): nat {
    if j != i && Candidate(tasks, core, j) && t + 1 > tasks[j].Time() then t + 1 - tasks[j].Time() else 0
  }

  /** The sum over the other ready tasks of the core of max(0, T - t_j + 1), slots from `k` on. */
  function Debt(tasks: seq<Task>, core: nat, i: nat, t: nat, k: nat): nat
    decreases |tasks| - k
  {
    if k >= |tasks| then 0 else Lead(tasks, core, i, t, k) + Debt(tasks, core, i, t, k + 1)
  }

  lemma {:induction false} DebtPoint(tasks: seq<Task>, us: seq<Task>, core: nat, i: nat, t: nat, k: nat, j: nat)
    requires |us| == |tasks| && k <= j < |tasks|
    requires forall q :: 0 <= q < |tasks| && q != j ==> Lead(us, core, i, t, q) == Lead(tasks, core, i, t, q)
    ensures Debt(us, core, i, t, k) - Debt(tasks, core, i, t, k) == Lead(us, core, i, t, j) - Lead(tasks, core, i, t, j)
    decreases |tasks| - k
  {
    hide Lead;
    if k < j {
      DebtPoint(tasks, us, core, i, t, k + 1, j);
    } else {
      DebtSame(tasks, us, core, i, t, k + 1);
    }
  }

  lemma {:induction false} DebtSame(tasks: seq<Task>, us: seq<Task>, core: nat, i: nat, t: nat, k: nat)
    requires |us| == |tasks|
    requires forall q :: k <= q < |tasks| ==> Lead(us, core, i, t, q) == Lead(tasks, core, i, t, q)
    ensures Debt(us, core, i, t, k) == Debt(tasks, core, i, t, k)
    decreases |tasks| - k
  {
    hide Lead;
    if k < |tasks| { DebtSame(tasks, us, core, i, t, k + 1); }
  }

  lemma {:induction false} LeadInDebt(tasks: seq<Task>, core: nat, i: nat, t: nat, k: nat, j: nat)
    requires k <= j < |tasks|
    ensures Lead(tasks, core, i, t, j) <= Debt(tasks, core, i, t, k)
    decreases |tasks| - k
  {
    hide Lead;
    if k < j { LeadInDebt(tasks, core, i, t, k + 1, j); }
  }

  function DebtTo(s: State, core: nat, i: nat): nat
    requires i < |s.tasks|
  {
    Debt(s.tasks, core, i, s.tasks[i].Time(), 0)
  }

  /** A tick on the core while another task runs pays one tick of the debt to task `i`. */
  lemma TickPays(s: State, core: nat, i: nat)
    requires Scheduled(s, core) && Candidate(s.tasks, core, i) && s.current[core] != i
    ensures var t := Next(s, Tick(core, true));
            && Scheduled(t, core) && Candidate(t.tasks, core, i)
            && DebtTo(t, core, i) + 1 == DebtTo(s, core, i)
  {
    var j := s.current[core];
    var t := Next(s, Tick(core, true));
    var us := Charged(s.tasks, j, true);
    PickIsNext(us, core);
    StepOwnCore(s, Tick(core, true));
    assert s.tasks[j].Time() <= s.tasks[i].Time();
    var time := s.tasks[i].Time();
    assert us[j].Time() == s.tasks[j].Time() + 1;
    forall q | 0 <= q < |us| && q != j ensures Lead(us, core, i, time, q) == Lead(s.tasks, core, i, time, q) { }
    DebtPoint(s.tasks, us, core, i, time, 0, j);
    LeadInDebt(s.tasks, core, i, time, 0, j);
  }

  /** Other cores' events leave this core's tasks, choice and debt alone. */
  lemma ForeignKeeps(s: State, e: Event, core: nat, i: nat)
    requires Scheduled(s, core) && Candidate(s.tasks, core, i) && Enabled(s, e) && Steady(e, core) && !(e.Tick? && e.core == core)
    ensures var t := Next(s, e);
            && Scheduled(t, core) && Candidate(t.tasks, core, i) && t.current[core] == s.current[core]
            && DebtTo(t, core, i) == DebtTo(s, core, i) && t.tasks[i].Time() == s.tasks[i].Time()
            && (forall q :: 0 <= q < |s.tasks| && q % NUM_CPUS == core ==> t.tasks[q] == s.tasks[q])
  {
    var t := Next(s, e);
    StepOwnCore(s, e);
    assert forall q :: 0 <= q < |s.tasks| && q % NUM_CPUS == core ==> t.tasks[q] == s.tasks[q];
    assert forall q :: Candidate(t.tasks, core, q) <==> Candidate(s.tasks, core, q);
    if e.Yield? && e.core == core {
      PickIsNext(s.tasks, core);
      NextUnique(s.tasks, core, s.current[core], t.current[core]);
    }
    forall q | 0 <= q < |s.tasks|
      ensures Lead(t.tasks, core, i, s.tasks[i].Time(), q) == Lead(s.tasks, core, i, s.tasks[i].Time(), q) { }
    DebtSame(s.tasks, t.tasks, core, i, s.tasks[i].Time(), 0);
  }

  /** Ticks of the core in a run. */
  function CoreTicks(es: seq<Event>, core: nat): nat {
    if es == [] then 0 else (if es[0].Tick? && es[0].core == core then 1 else 0) + CoreTicks(es[1..], core)
  }

  /**
   * Bounded waiting: on a core with a fixed set of ready user-mode tasks, once the core has scheduled, a
   * ready task is running after at most DebtTo ticks of the core, whatever the other cores do.
   */
  lemma {:induction false} Chosen(s: State, core: nat, i: nat, es: seq<Event>) returns (m: nat)
    requires Scheduled(s, core) && Candidate(s.tasks, core, i)
    requires forall k :: 0 <= k < |es| ==> Steady(es[k], core)
    requires CoreTicks(es, core) >= DebtTo(s, core, i)
    ensures m <= |es| && Run(s, es[..m]).current[core] == i
    ensures CoreTicks(es[..m], core) <= DebtTo(s, core, i)
    decreases |es|
  {
    hide Debt, Candidate, IsNext, Pick, Scan, Next;
    m := 0;
    if s.current[core] == i {
      assert es[..0] == [];
    } else if es == [] {
      NoDebt(s, core, i);
    } else {
      var e, rest := es[0], es[1..];
      assert forall k :: 0 <= k < |rest| ==> rest[k] == es[k + 1];
      var t := if Enabled(s, e) then Next(s, e) else s;
      StepChosen(s, core, i, e);
      var n := Chosen(t, core, i, rest);
      m := n + 1;
      assert es[..m][1..] == rest[..n];
    }
  }

  /** One event of a steady run, as the bound needs it. */
  lemma StepChosen(s: State, core: nat, i: nat, e: Event)
    requires Scheduled(s, core) && Candidate(s.tasks, core, i) && s.current[core] != i && Steady(e, core)
    ensures var t := if Enabled(s, e) then Next(s, e) else s;
            && Scheduled(t, core) && Candidate(t.tasks, core, i)
            && DebtTo(t, core, i) + (if e.Tick? && e.core == core then 1 else 0) == DebtTo(s, core, i)
  {
    if Enabled(s, e) {
      if e.Tick? && e.core == core { TickPays(s, core, i); } else { ForeignKeeps(s, e, core, i); }
    }
  }

  /** Without debt the task is the one chosen. */
  lemma NoDebt(s: State, core: nat, i: nat)
    requires Scheduled(s, core) && Candidate(s.tasks, core, i) && DebtTo(s, core, i) == 0
    ensures s.current[core] == i
  {
    var j := s.current[core];
    assert Candidate(s.tasks, core, j);
    if j != i { LeadInDebt(s.tasks, core, i, s.tasks[i].Time(), 0, j); }
  }

  // ---------------------------------------------------------------------------------------
  // From an idle core

  /** The event makes no choice on `core`; it may make tasks of the core ready. */
  predicate Elsewhere(e: Event, core: nat) { e.SetTask? || e.core != core }

  /** A core that runs its swapper goes on doing so while nothing calls schedule on it. */
  lemma {:induction false} StaysIdle(s: State, core: nat, es: seq<Event>)
    requires OwnCore(s) && core < NUM_CPUS && s.current[core] == SWAPPER
    requires forall k :: 0 <= k < |es| ==> Elsewhere(es[k], core)
    ensures OwnCore(Run(s, es)) && Run(s, es).current[core] == SWAPPER
    decreases |es|
  {
    if es != [] {
      var rest := es[1..];
      assert forall k :: 0 <= k < |rest| ==> rest[k] == es[k + 1];
      if Enabled(s, es[0]) {
        StepOwnCore(s, es[0]);
        StaysIdle(Next(s, es[0]), core, rest);
      } else {
        StaysIdle(s, core, rest);
      }
    }
  }

  /** The first tick of an idle core, in whatever mode, charges no task and makes the core choose. */
  lemma IdleTick(s: State, core: nat, userMode: bool)
    requires OwnCore(s) && core < NUM_CPUS && s.current[core] == SWAPPER
    ensures var t := Next(s, Tick(core, userMode)); Scheduled(t, core) && t.tasks == s.tasks
  {
    StepOwnCore(s, Tick(core, userMode));
    PickIsNext(s.tasks, core);
  }

  lemma {:induction false} RunAppend(s: State, es: seq<Event>, fs: seq<Event>)
    requires Shape(s)
    ensures Run(s, es + fs) == Run(Run(s, es), fs)
    decreases |es|
  {
    if es == [] {
      assert es + fs == fs;
    } else {
      assert (es + fs)[0] == es[0] && (es + fs)[1..] == es[1..] + fs;
      RunAppend(if Enabled(s, es[0]) then Next(s, es[0]) else s, es[1..], fs);
    }
  }

  lemma {:induction false} TicksAppend(es: seq<Event>, fs: seq<Event>, core: nat)
    ensures CoreTicks(es + fs, core) == CoreTicks(es, core) + CoreTicks(fs, core)
  {
    if es == [] {
      assert es + fs == fs;
    } else {
      assert (es + fs)[1..] == es[1..] + fs;
      TicksAppend(es[1..], fs, core);
    }
  }

  /**
   * Bounded waiting from an idle core: tasks may become ready while the core runs its swapper; once task `i` is, it
   * runs after the next tick and at most its debt of further ones.
   */
  lemma ChosenFromIdle(s: State, core: nat, i: nat, pre: seq<Event>, userMode: bool, post: seq<Event>) returns (m: nat)
    requires OwnCore(s) && core < NUM_CPUS && s.current[core] == SWAPPER
    requires (forall k :: 0 <= k < |pre| ==> Elsewhere(pre[k], core)) && forall k :: 0 <= k < |post| ==> Steady(post[k], core)
    requires Candidate(Run(s, pre).tasks, core, i) && CoreTicks(post, core) >= DebtTo(Run(s, pre), core, i)
    ensures m <= |post| && Run(s, pre + [Tick(core, userMode)] + post[..m]).current[core] == i
    ensures CoreTicks([Tick(core, userMode)] + post[..m], core) <= 1 + DebtTo(Run(s, pre), core, i)
  {
    var u, e := Run(s, pre), Tick(core, userMode);
    StaysIdle(s, core, pre);
    IdleTick(u, core, userMode);
    var t := Next(u, e);
    hide Next, Debt, Candidate;
    m := Chosen(t, core, i, post);
    RunAppend(s, pre + [e], post[..m]);
    RunAppend(s, pre, [e]);
    RunOne(u, e);
    TicksAppend([e], post[..m], core);
    assert CoreTicks([e], core) == 1 by { assert [e][1..] == []; }
  }

  lemma RunOne(s: State, e: Event)
    requires Shape(s) && Enabled(s, e)
    ensures Run(s, [e]) == Next(s, e)
  {
    assert [e][1..] == [];
  }

  // ---------------------------------------------------------------------------------------
  // Spread

  /** Run times of the core's ready tasks differ by at most `d`. */
  ghost predicate SpreadWithin(s: State, core: nat, d: nat) {
    forall a, b :: Candidate(s.tasks, core, a) && Candidate(s.tasks, core, b) ==> s.tasks[a].Time() <= s.tasks[b].Time() + d
  }

  lemma TickSpread(s: State, core: nat, d: nat)
    requires Scheduled(s, core) && SpreadWithin(s, core, d) && d >= 1
    ensures var t := Next(s, Tick(core, true)); Scheduled(t, core) && SpreadWithin(t, core, d)
  {
    var us := Charged(s.tasks, s.current[core], true);
    PickIsNext(us, core);
    StepOwnCore(s, Tick(core, true));
    assert forall q :: Candidate(us, core, q) <==> Candidate(s.tasks, core, q);
  }

  lemma ForeignSpread(s: State, e: Event, core: nat, d: nat)
    requires Scheduled(s, core) && SpreadWithin(s, core, d) && Enabled(s, e) && Steady(e, core) && !(e.Tick? && e.core == core)
    ensures var t := Next(s, e); Scheduled(t, core) && SpreadWithin(t, core, d)
  {
    var t := Next(s, e);
    StepOwnCore(s, e);
    assert forall q :: 0 <= q < |s.tasks| && q % NUM_CPUS == core ==> t.tasks[q] == s.tasks[q];
    assert forall q :: Candidate(t.tasks, core, q) <==> Candidate(s.tasks, core, q);
    if e.Yield? && e.core == core {
      PickIsNext(s.tasks, core);
    }
  }

  /** Fair shares: over a steady run the spread of run times never exceeds max(1, the initial spread). */
  lemma {:induction false} FairShares(s: State, core: nat, es: seq<Event>, d: nat)
    requires Scheduled(s, core) && SpreadWithin(s, core, d) && d >= 1
    requires forall k :: 0 <= k < |es| ==> Steady(es[k], core)
    ensures Scheduled(Run(s, es), core) && SpreadWithin(Run(s, es), core, d)
    decreases |es|
  {
    hide Scheduled, SpreadWithin, Next;
    if es != [] {
      var rest := es[1..];
      assert forall k :: 0 <= k < |rest| ==> rest[k] == es[k + 1];
      if Enabled(s, es[0]) {
        if es[0].Tick? && es[0].core == core { assert es[0] == Tick(core, true); TickSpread(s, core, d); } else { ForeignSpread(s, es[0], core, d); }
        FairShares(Next(s, es[0]), core, rest, d);
      } else {
        ScheduledShape(s, core);
        FairShares(s, core, rest, d);
      }
    }
  }

  lemma ScheduledShape(s: State, core: nat)
    requires Scheduled(s, core)
    ensures Shape(s)
  {
  }

  // ---------------------------------------------------------------------------------------
  // The code

  class Cpus {
    var tasks: array<Task>
    var current: array<int>

    ghost predicate Valid()
      reads this, tasks, current
    {
      Shape(View())
    }

    ghost function View(): State
      reads this, tasks, current
    {
      State(tasks[..], current[..])
    }

    constructor (tasks: array<Task>, current: array<int>)
      ensures this.tasks == tasks && this.current == current
    {
      this.tasks, this.current := tasks, current;
    }

    /** get_next_proc: scans the core's slots for the least run time. */
    method GetNextProc(core: nat) returns (r: int)
      requires Valid() && core < NUM_CPUS
      ensures r == Pick(tasks[..], core) && IsNext(tasks[..], core, r)
      ensures r == -1 || (0 <= r < tasks.Length && r % 2 == core && tasks[r].inUse && tasks[r].running)
      ensures forall j :: 0 <= j < tasks.Length && j % 2 == core && tasks[j].inUse && tasks[j].running ==>
                && r != -1
                && var mine, other := tasks[r].stime + tasks[r].utime, tasks[j].stime + tasks[j].utime;
                   mine < other || (mine == other && r <= j)
    {
      PickIsNext(tasks[..], core);
      NextMeans(tasks[..], core, Pick(tasks[..], core));
      var minTimeIndex := -1;
      var minTime := 0;
      var i := core;
      while i < MAX_NUM_PROCESSES
        invariant core <= i && -1 <= minTimeIndex < MAX_NUM_PROCESSES
        invariant minTimeIndex != -1 ==> minTime == tasks[minTimeIndex].Time()
        invariant Pick(tasks[..], core) == Scan(tasks[..], i, minTimeIndex)
        decreases MAX_NUM_PROCESSES + NUM_CPUS - i
      {
        if tasks[i].inUse && tasks[i].running {
          var procTime := tasks[i].stime + tasks[i].utime;
          if minTimeIndex == -1 || minTime > procTime {
            minTimeIndex := i;
            minTime := procTime;
          }
        }
        i := i + NUM_CPUS;
      }
      r := minTimeIndex;
    }

    /** schedule. */
    method ScheduleCore(core: nat)
      requires Valid() && core < NUM_CPUS && tasks as object != current
      modifies current
      ensures Valid() && View() == Next(old(View()), Yield(core))
      ensures IsNext(tasks[..], core, current[core])
      ensures forall c :: 0 <= c < NUM_CPUS && c != core ==> current[c] == old(current[c])
    {
      var next := GetNextProc(core);
      ghost var was := current[..];
      current[core] := next;
      assert current[..] == was[core := next];
    }

    /** The timer branch of irq_handler. */
    method TimerTick(core: nat, inUserMode: bool)
      requires Valid() && core < NUM_CPUS && tasks as object != current
      modifies tasks, current
      ensures Valid() && View() == Next(old(View()), Tick(core, inUserMode))
      ensures forall i :: 0 <= i < tasks.Length ==>
                tasks[i] == if i != old(current[core]) then old(tasks[i])
                            else if inUserMode then old(tasks[i]).(utime := old(tasks[i]).utime + 1)
                            else old(tasks[i]).(stime := old(tasks[i]).stime + 1)
      ensures forall c :: 0 <= c < NUM_CPUS && c != core ==> current[c] == old(current[c])
      ensures inUserMode || old(current[core]) == -1 ==> IsNext(tasks[..], core, current[core])
      ensures !inUserMode && old(current[core]) != -1 ==> current[core] == old(current[core])
    {
      var c := current[core];
      ghost var was := tasks[..];
      if c != SWAPPER {
        if inUserMode {
          tasks[c] := tasks[c].(utime := tasks[c].utime + 1);
        } else {
          tasks[c] := tasks[c].(stime := tasks[c].stime + 1);
        }
      }
      assert tasks[..] == Charged(was, c, inUserMode);
      if inUserMode || c == SWAPPER {
        ScheduleCore(core);
      }
    }
  }
}
