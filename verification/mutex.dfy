/**
 * kernel/mutex.c: a sleeping mutex over a 32-bit map of waiting tasks, for any number of tasks
 * and any interleaving. Each step is one critical section of the mutex's spinlock.
 */
module Mutex {

  // ---------------------------------------------------------------------------------------
  // The bitmap

  /** `1ULL << pid`, cut to the 32 bits of the map: nothing is left of it for pid 32. */
  function Mask(pid: nat): bv32
    requires pid <= 32
  {
    if pid == 0 then 1 else Mask(pid - 1) << 1
  }

  predicate Test(w: bv32, m: bv32) { w & m != 0 }

  function With(w: bv32, m: bv32): bv32 { w | m }

  function Without(w: bv32, m: bv32): bv32 { w & !m }

  predicate NoCommonBit(a: bv32, b: bv32) { a & b == 0 }

  predicate Bit(w: bv32, pid: nat)
    requires pid <= 32
  {
    Test(w, Mask(pid))
  }

  lemma ShiftAbove(m: bv32, low: bv32)
    requires low & (low + 1) == 0 && m & low == 0
    ensures (m << 1) & low == 0
  {
  }

  /** The bits up to `pid`. */
  function UpTo(pid: nat): bv32
    requires pid <= 32
  {
    if pid == 0 then 1 else (UpTo(pid - 1) << 1) | 1
  }

  lemma {:induction false} UpToIsLow(pid: nat)
    requires pid <= 32
    ensures UpTo(pid) & (UpTo(pid) + 1) == 0
    ensures Mask(pid) & UpTo(pid) == Mask(pid)
    ensures pid < 32 ==> (Mask(pid) << 1) & UpTo(pid) == 0
  {
    if pid > 0 {
      UpToIsLow(pid - 1);
      LowStep(UpTo(pid - 1), Mask(pid - 1));
    }
  }

  lemma LowStep(low: bv32, m: bv32)
    requires low & (low + 1) == 0 && m & low == m && (m << 1) & low == 0
    ensures ((low << 1) | 1) & (((low << 1) | 1) + 1) == 0
    ensures (m << 1) & ((low << 1) | 1) == m << 1
    ensures ((m << 1) << 1) & ((low << 1) | 1) == 0
  {
  }

  /** Different pids have different bits. */
  lemma {:induction false} MasksDisjoint(p: nat, q: nat)
    requires p < q <= 32
    ensures Mask(q) & UpTo(p) == 0
    ensures Mask(p) & Mask(q) == 0
    decreases q
  {
    UpToIsLow(p);
    if q > p + 1 {
      MasksDisjoint(p, q - 1);
      ShiftAbove(Mask(q - 1), UpTo(p));
    }
    SubMask(Mask(p), Mask(q), UpTo(p));
  }

  lemma SubMask(a: bv32, b: bv32, low: bv32)
    requires a & low == a && b & low == 0
    ensures a & b == 0
  {
  }

  lemma {:induction false} MaskNonzero(pid: nat)
    requires pid <= 32
    ensures Mask(pid) != 0 <==> pid < 32
    decreases 32 - pid
  {
    assert Mask(8) == 0x100;
    assert Mask(16) == Mask(8) << 8;
    assert Mask(24) == Mask(16) << 8;
    assert Mask(32) == Mask(24) << 8;
    if pid < 31 {
      MaskNonzero(pid + 1);
    }
    assert Mask(31) == 0x8000_0000;
  }

  lemma OtherBit(w: bv32, a: bv32, b: bv32)
    requires NoCommonBit(a, b)
    ensures Test(With(w, a), b) == Test(w, b)
  {
    Distribute(w, a, b);
  }

  lemma Distribute(w: bv32, a: bv32, b: bv32)
    ensures (w | a) & b == (w & b) | (a & b)
  {
  }

  lemma OtherBitCleared(w: bv32, a: bv32, b: bv32)
    requires NoCommonBit(a, b)
    ensures Test(Without(w, a), b) == Test(w, b)
  {
    assert !a & b == b by { Complement(a, b); }
    assert (w & !a) & b == w & (!a & b);
  }

  lemma Complement(a: bv32, b: bv32)
    requires a & b == 0
    ensures !a & b == b
  {
  }

  lemma OwnBit(w: bv32, a: bv32)
    ensures Test(With(w, a), a) <==> a != 0
    ensures !Test(Without(w, a), a)
  {
  }

  lemma {:induction false} Apart(p: nat, q: nat)
    requires p != q && p <= 32 && q <= 32
    ensures NoCommonBit(Mask(p), Mask(q))
  {
    if p < q { MasksDisjoint(p, q); } else { MasksDisjoint(q, p); AndSym(Mask(p), Mask(q)); }
  }

  lemma AndSym(a: bv32, b: bv32)
    ensures a & b == b & a
  {
  }

  /** The map as 32 flags. */
  function Flags(w: bv32): (f: seq<bool>)
    ensures |f| == 32
  {
    seq(32, p requires 0 <= p < 32 => Bit(w, p))
  }

  lemma FlagAt(w: bv32, p: nat)
    requires p < 32
    ensures Flags(w)[p] == Bit(w, p)
  {
  }

  /** Setting the bit of a pid sets its flag, if it has one; clearing likewise. */
  lemma FlagsAfter(w: bv32, p: nat)
    requires p <= 32
    ensures Flags(With(w, Mask(p))) == WithFlag(Flags(w), p, true)
    ensures Flags(Without(w, Mask(p))) == WithFlag(Flags(w), p, false)
  {
    hide Mask, Flags, Bit, Test, With, Without, NoCommonBit;
    forall q: nat | q < 32
      ensures Flags(With(w, Mask(p)))[q] == WithFlag(Flags(w), p, true)[q]
      ensures Flags(Without(w, Mask(p)))[q] == WithFlag(Flags(w), p, false)[q]
    {
      FlagAfter(w, p, q);
    }
  }

  function WithFlag(f: seq<bool>, p: nat, v: bool): (g: seq<bool>)
    ensures |g| == |f|
  {
    if p < |f| then f[p := v] else f
  }

  lemma FlagAfter(w: bv32, p: nat, q: nat)
    requires p <= 32 && q < 32
    ensures Flags(With(w, Mask(p)))[q] == WithFlag(Flags(w), p, true)[q]
    ensures Flags(Without(w, Mask(p)))[q] == WithFlag(Flags(w), p, false)[q]
  {
    hide Mask, Flags, Test, With, Without, NoCommonBit;
    FlagAt(With(w, Mask(p)), q);
    FlagAt(Without(w, Mask(p)), q);
    FlagAt(w, q);
    if p == q {
      MaskNonzero(p);
      OwnBit(w, Mask(p));
    } else {
      Apart(p, q);
      OtherBit(w, Mask(p), Mask(q));
      OtherBitCleared(w, Mask(p), Mask(q));
    }
  }

  /** The lowest pid from `i` on whose flag is set, -1 if there is none. */
  function NextWaiting(f: seq<bool>, i: nat): (r: int)
    requires i <= |f|
    ensures r == -1 || (i <= r < |f| && f[r] && forall k :: i <= k < r ==> !f[k])
    ensures r == -1 ==> forall k :: i <= k < |f| ==> !f[k]
    decreases |f| - i
  {
    if i == |f| then -1 else if f[i] then i else NextWaiting(f, i + 1)
  }

  /** Flag `w` is set and none below it is. */
  ghost predicate Lowest(f: seq<bool>, w: nat) {
    w < |f| && f[w] && forall k :: 0 <= k < w ==> !f[k]
  }

  lemma LowestIsNext(f: seq<bool>)
    ensures forall w: nat :: Lowest(f, w) <==> NextWaiting(f, 0) == w
  {
  }

  /** get_next_waiting: the bit scan. */
  method GetNextWaiting(waiting: bv32) returns (r: int)
    ensures r == NextWaiting(Flags(waiting), 0)
  {
    hide Mask, Flags, Test;
    var i := 0;
    while i < 32
      invariant 0 <= i <= 32
      invariant NextWaiting(Flags(waiting), 0) == NextWaiting(Flags(waiting), i)
    {
      FlagAt(waiting, i);
      if Test(waiting, Mask(i)) {
        return i;
      }
      i := i + 1;
    }
    return -1;
  }

  // ---------------------------------------------------------------------------------------
  // The protocol

  const MAX_PID := 32

  /** Where a task is: outside, about to take the spinlock of mutex_lock, past its critical section and on the way to sleep, or holding. */
  datatype Pc = Outside | Trying | Parked | Holding

  /** `sleeping` is the scheduler's state SLEEPING; a parked task that is not sleeping was woken and retries. */
  datatype State = State(locked: bool, waiting: seq<bool>, pc: seq<Pc>, sleeping: seq<bool>)

  function Initial(): (s: State)
    ensures Shape(s)
  {
    State(false, seq(32, _ => false), seq(MAX_PID + 1, _ => Outside), seq(MAX_PID + 1, _ => false))
  }

  datatype Step = Enter(pid: nat) | Try(pid: nat) | Unlock(pid: nat)

  predicate Shape(s: State) { |s.waiting| == 32 && |s.pc| == MAX_PID + 1 && |s.sleeping| == MAX_PID + 1 }

  predicate Enabled(s: State, step: Step)
    requires Shape(s)
  {
    && step.pid <= MAX_PID
    && match step
       case Enter(p) => s.pc[p] == Outside
       case Try(p) => s.pc[p] == Trying || (s.pc[p] == Parked && !s.sleeping[p])
       case Unlock(p) => s.pc[p] == Holding
  }

  /** One critical section of mutex_lock or mutex_unlock. */
  function Next(s: State, step: Step): (t: State)
    requires Shape(s) && Enabled(s, step)
    ensures Shape(t)
  {
    match step
    case Enter(p) => s.(pc := s.pc[p := Trying])
    case Try(p) =>
      if !s.locked then s.(locked := true, pc := s.pc[p := Holding])
      else s.(waiting := WithFlag(s.waiting, p, true), pc := s.pc[p := Parked], sleeping := s.sleeping[p := true])
    case Unlock(p) =>
      var t := s.(locked := false, pc := s.pc[p := Outside]);
      var w := NextWaiting(s.waiting, 0);
      if w > 0 then t.(waiting := WithFlag(s.waiting, w, false), sleeping := s.sleeping[w := false]) else t
  }

  function Run(s: State, steps: seq<Step>): (t: State)
    requires Shape(s)
    ensures Shape(t)
    decreases |steps|
  {
    if steps == [] then s else Run(if Enabled(s, steps[0]) then Next(s, steps[0]) else s, steps[1..])
  }

  /** The tasks that take part. */
  ghost predicate Only(steps: seq<Step>, pids: set<nat>) {
    forall k :: 0 <= k < |steps| ==> steps[k].pid in pids
  }

  /** Unlocked, with some task asleep on the mutex and none awake to take it. */
  ghost predicate Stuck(s: State)
    requires Shape(s)
  {
    && !s.locked
    && (exists p :: 0 <= p <= MAX_PID && s.pc[p] == Parked)
    && (forall p :: 0 <= p <= MAX_PID ==> s.pc[p] == Outside || (s.pc[p] == Parked && s.sleeping[p]))
  }

  ghost predicate AtMostOneHolder(s: State)
    requires Shape(s)
  {
    forall p, q :: 0 <= p <= MAX_PID && 0 <= q <= MAX_PID && s.pc[p] == Holding && s.pc[q] == Holding ==> p == q
  }

  ghost predicate Woken(s: State, p: nat)
    requires Shape(s) && p <= MAX_PID
  {
    s.pc[p] == Parked && !s.sleeping[p]
  }

  /** The mutex is locked exactly while somebody holds it, and that task is the only holder. */
  ghost predicate HolderOk(s: State)
    requires Shape(s)
  {
    AtMostOneHolder(s) && (s.locked <==> exists p :: 0 <= p <= MAX_PID && s.pc[p] == Holding)
  }

  /** The invariant for pids 1 to 31: the map is the set of sleepers, and a free mutex with sleepers has a woken task. */
  ghost predicate Inv(s: State) {
    && Shape(s) && HolderOk(s)
    && s.pc[0] == Outside && s.pc[32] == Outside
    && (forall p :: 0 <= p <= 31 ==> (s.waiting[p] <==> s.pc[p] == Parked && s.sleeping[p]))
    && (!s.locked && (exists p :: 1 <= p <= 31 && s.waiting[p]) ==> exists q :: 1 <= q <= 31 && Woken(s, q))
  }

  lemma InitialInv()
    ensures Inv(Initial())
  {
  }

  lemma TryKeeps(s: State, p: nat)
    requires Inv(s) && 1 <= p <= 31 && Enabled(s, Try(p))
    ensures Inv(Next(s, Try(p)))
  {
    var t := Next(s, Try(p));
    assert t.pc[p] == Holding || t.pc[p] == Parked;
    if s.locked {
      var h :| 0 <= h <= MAX_PID && s.pc[h] == Holding;
      assert t.pc[h] == Holding;
    }
  }

  lemma UnlockKeeps(s: State, p: nat)
    requires Inv(s) && 1 <= p <= 31 && Enabled(s, Unlock(p))
    ensures Inv(Next(s, Unlock(p)))
  {
    var w := NextWaiting(s.waiting, 0);
    if w > 0 {
      assert Woken(Next(s, Unlock(p)), w);
    }
  }

  lemma StepKeeps(s: State, step: Step)
    requires Inv(s) && 1 <= step.pid <= 31 && Enabled(s, step)
    ensures Inv(Next(s, step))
  {
    match step
    case Enter(p) =>
      assert forall q :: 0 <= q <= MAX_PID && q != p ==> Next(s, step).pc[q] == s.pc[q];
      EnterKeeps(s, p);
    case Try(p) => TryKeeps(s, p);
    case Unlock(p) => UnlockKeeps(s, p);
  }

  /**
   * An unlock wakes exactly one sleeper, the one with the lowest pid; nobody if no bit is set, or if the lowest one
   * is that of pid 0.
   */
  lemma UnlockWakes(s: State, p: nat)
    requires Shape(s) && Enabled(s, Unlock(p))
    ensures var t := Next(s, Unlock(p));
            && !t.locked && t.pc == s.pc[p := Outside]
            && (forall w :: 0 < w < 32 && s.waiting[w] && (forall k :: 0 <= k < w ==> !s.waiting[k]) ==>
                  t.sleeping == s.sleeping[w := false] && t.waiting == s.waiting[w := false])
            && (s.waiting[0] || (forall k :: 0 <= k < 32 ==> !s.waiting[k]) ==>
                  t.sleeping == s.sleeping && t.waiting == s.waiting)
  {
  }

  /** A try takes a free mutex and changes nothing else; on a taken one it sets its bit and goes to sleep. */
  lemma TrySleeps(s: State, p: nat)
    requires Shape(s) && Enabled(s, Try(p))
    ensures var t := Next(s, Try(p));
            && t.locked
            && (!s.locked ==> t.pc == s.pc[p := Holding] && t.waiting == s.waiting && t.sleeping == s.sleeping)
            && (s.locked ==> t.pc == s.pc[p := Parked] && t.sleeping == s.sleeping[p := true]
                             && t.waiting == if p < 32 then s.waiting[p := true] else s.waiting)
  {
  }

  lemma EnterKeeps(s: State, p: nat)
    requires Inv(s) && 1 <= p <= 31 && Enabled(s, Enter(p))
    ensures Inv(Next(s, Enter(p)))
  {
    var t := Next(s, Enter(p));
    if !s.locked && exists q :: 1 <= q <= 31 && s.waiting[q] {
      var q :| 1 <= q <= 31 && Woken(s, q);
      assert Woken(t, q);
    }
    if s.locked {
      var h :| 0 <= h <= MAX_PID && s.pc[h] == Holding;
      assert t.pc[h] == Holding;
    }
  }

  lemma {:induction false} RunKeeps(s: State, steps: seq<Step>, pids: set<nat>)
    requires Inv(s) && Only(steps, pids) && forall p :: p in pids ==> 1 <= p <= 31
    ensures Inv(Run(s, steps))
    decreases |steps|
  {
    hide Inv, Next;
    if steps != [] {
      var rest := steps[1..];
      assert forall k :: 0 <= k < |rest| ==> rest[k] == steps[k + 1];
      assert steps[0].pid in pids;
      ShapeOf(s);
      if Enabled(s, steps[0]) {
        StepKeeps(s, steps[0]);
        RunKeeps(Next(s, steps[0]), rest, pids);
      } else {
        RunKeeps(s, rest, pids);
      }
    }
  }

  lemma ShapeOf(s: State)
    requires Inv(s)
    ensures Shape(s)
  {
  }

  /**
   * Over every interleaving of tasks with pids 1 to 31: at most one holds the mutex, a sleeper's bit
   * is never lost, and the mutex is never free with every contender asleep.
   */
  lemma MutualExclusion(steps: seq<Step>, pids: set<nat>)
    requires Only(steps, pids) && forall p :: p in pids ==> 1 <= p <= 31
    ensures var s := Run(Initial(), steps);
            && AtMostOneHolder(s) && !Stuck(s)
            && (forall p :: 1 <= p <= 31 && s.pc[p] == Parked && s.sleeping[p] ==> s.waiting[p])
            && ((exists p :: 0 <= p < 32 && s.waiting[p]) ==> s.locked || exists q :: 1 <= q <= 31 && Woken(s, q))
  {
    InitialInv();
    RunKeeps(Initial(), steps, pids);
    var s := Run(Initial(), steps);
    hide Run;
    if Stuck(s) {
      var p :| 0 <= p <= MAX_PID && s.pc[p] == Parked;
      assert false;
    }
  }

  // ---------------------------------------------------------------------------------------
  // Pid 32

  lemma RunStep(s: State, step: Step, rest: seq<Step>)
    requires Shape(s) && Enabled(s, step)
    ensures Run(s, [step] + rest) == Run(Next(s, step), rest)
  {
    assert ([step] + rest)[1..] == rest;
  }

  lemma NoneWaiting(f: seq<bool>, i: nat)
    requires i <= |f| && forall k :: i <= k < |f| ==> !f[k]
    ensures NextWaiting(f, i) == -1
  {
  }

  /** Task `p` locks, task 32 goes to sleep without leaving a bit, `p` unlocks: nobody is woken. */
  lemma Pid32Sleeps(p: nat) returns (steps: seq<Step>)
    requires 1 <= p <= 31
    ensures Only(steps, {p, 32}) && Stuck(Run(Initial(), steps))
  {
    steps := [Enter(p)] + ([Try(p)] + ([Enter(32)] + ([Try(32)] + ([Unlock(p)] + []))));
    var s1 := Next(Initial(), Enter(p));
    var s2 := Next(s1, Try(p));
    var s3 := Next(s2, Enter(32));
    var s4 := Next(s3, Try(32));
    NoneWaiting(s4.waiting, 0);
    var s5 := Next(s4, Unlock(p));
    RunStep(Initial(), Enter(p), [Try(p)] + ([Enter(32)] + ([Try(32)] + ([Unlock(p)] + []))));
    RunStep(s1, Try(p), [Enter(32)] + ([Try(32)] + ([Unlock(p)] + [])));
    RunStep(s2, Enter(32), [Try(32)] + ([Unlock(p)] + []));
    RunStep(s3, Try(32), [Unlock(p)] + []);
    RunStep(s4, Unlock(p), []);
    assert s5.pc[32] == Parked;
  }

  /** A task alone never sleeps. */
  ghost predicate Alone(s: State, p: nat) {
    && Shape(s) && p <= MAX_PID && s.pc[p] != Parked
    && (s.locked <==> s.pc[p] == Holding)
    && (forall q :: 0 <= q <= MAX_PID && q != p ==> s.pc[q] == Outside)
    && (forall q :: 0 <= q < 32 ==> !s.waiting[q])
  }

  lemma {:induction false} AloneSafe(s: State, steps: seq<Step>, p: nat)
    requires Alone(s, p) && Only(steps, {p})
    ensures Alone(Run(s, steps), p)
    decreases |steps|
  {
    if steps != [] {
      var rest := steps[1..];
      assert forall k :: 0 <= k < |rest| ==> rest[k] == steps[k + 1];
      assert steps[0].pid in {p};
      NoneWaiting(s.waiting, 0);
      if Enabled(s, steps[0]) {
        AloneSafe(Next(s, steps[0]), rest, p);
      } else {
        AloneSafe(s, rest, p);
      }
    }
  }

  ghost predicate CanGetStuck(pids: set<nat>) {
    exists steps :: Only(steps, pids) && Stuck(Run(Initial(), steps))
  }

  /** With pids 1 to 32, a wake-up can be lost exactly when task 32 has company. */
  lemma LostWakeUpIff(pids: set<nat>)
    requires forall p :: p in pids ==> 1 <= p <= 32
    ensures CanGetStuck(pids) <==> 32 in pids && pids != {32}
  {
    if 32 in pids && pids != {32} {
      var p :| p in pids && p != 32;
      var steps := Pid32Sleeps(p);
      assert Only(steps, pids);
    }
    if CanGetStuck(pids) {
      var steps :| Only(steps, pids) && Stuck(Run(Initial(), steps));
      if 32 !in pids {
        MutualExclusion(steps, pids);
      } else if pids == {32} {
        AloneSafe(Initial(), steps, 32);
      }
    }
  }

  // ---------------------------------------------------------------------------------------
  // The code

  /** The mutex with its real bitmap, and the states of the tasks that use it. */
  class MutexSystem {
    var locked: bool
    var waiting: bv32
    var pc: seq<Pc>
    var sleeping: seq<bool>

    /** The protocol state this is. */
    ghost function View(): State
      reads this
    {
      State(locked, Flags(waiting), pc, sleeping)
    }

    constructor ()
      ensures View() == Initial()
    {
      locked, waiting := false, 0;
      pc, sleeping := seq(MAX_PID + 1, _ => Outside), seq(MAX_PID + 1, _ => false);
      new;
      assert Flags(0) == Initial().waiting;
    }

    /** One round of mutex_lock's loop, under the spinlock. */
    method LockRound(pid: nat) returns (acquired: bool)
      requires Shape(View()) && Enabled(View(), Try(pid))
      modifies this
      ensures View() == Next(old(View()), Try(pid))
      ensures locked && acquired == !old(locked)
      ensures pc == old(pc)[pid := if acquired then Holding else Parked]
      ensures sleeping == if acquired then old(sleeping) else old(sleeping)[pid := true]
      ensures forall q :: 0 <= q < 32 ==> Flags(waiting)[q] == (old(Flags(waiting))[q] || (!acquired && q == pid))
    {
      hide Mask, Flags, With;
      if !locked {
        locked := true;
        pc := pc[pid := Holding];
        return true;
      }
      FlagsAfter(waiting, pid);
      waiting := With(waiting, Mask(pid));
      sleeping := sleeping[pid := true];
      pc := pc[pid := Parked];
      return false;
    }

    /** mutex_unlock by the holder. */
    method Unlock(pid: nat)
      requires Shape(View()) && Enabled(View(), Step.Unlock(pid))
      modifies this
      ensures View() == Next(old(View()), Step.Unlock(pid))
      ensures !locked && pc == old(pc)[pid := Outside]
      ensures forall w :: 0 < w < 32 && Lowest(old(Flags(waiting)), w) ==>
                sleeping == old(sleeping)[w := false] && Flags(waiting) == old(Flags(waiting))[w := false]
      ensures (forall w :: 0 < w < 32 ==> !Lowest(old(Flags(waiting)), w)) ==>
                sleeping == old(sleeping) && Flags(waiting) == old(Flags(waiting))
    {
      hide Mask, Flags, Without;
      LowestIsNext(Flags(waiting));
      locked := false;
      pc := pc[pid := Outside];
      var next := GetNextWaiting(waiting);
      assert next > 0 ==> Lowest(old(Flags(waiting)), next);
      if next > 0 {
        FlagsAfter(waiting, next);
        waiting := Without(waiting, Mask(next));
        sleeping := sleeping[next := false];
      }
    }
  }
}
