/**
 * kernel/spinlock.c: a spinlock from load-exclusive and store-exclusive, for any number of CPUs and
 * any interleaving of their instructions. Interrupts are masked between the two instructions
 * of a pair, so a CPU does nothing else in between.
 */
module Spinlock {

  // ---------------------------------------------------------------------------------------
  // The exclusive monitors

  /** The lock word, and for each CPU whether its exclusive monitor is armed. */
  datatype Word = Word(value: nat, armed: seq<bool>)

  /** LDXR: loads the word and arms the CPU's monitor. */
  function Ldxr(w: Word, cpu: nat): Word
    requires cpu < |w.armed|
  {
    w.(armed := w.armed[cpu := true])
  }

  /** STXR: stores only if the CPU's monitor is armed; a store clears every monitor, a failed one its own. */
  function Stxr(w: Word, cpu: nat, v: nat): Word
    requires cpu < |w.armed|
  {
    if w.armed[cpu] then Word(v, seq(|w.armed|, _ => false)) else w
  }

  // ---------------------------------------------------------------------------------------
  // The protocol

  /** Where a CPU is; `v` is the value its LDXR returned. */
  datatype Pc = Outside | Locking(v: nat) | Holding | Unlocking(v: nat)

  datatype State = State(word: Word, pc: seq<Pc>)

  datatype Step =
    | LockLoad(cpu: nat)     // spin_lock: LDXR
    | LockStore(cpu: nat)    // spin_lock: test, STXR, test of its result
    | UnlockLoad(cpu: nat)   // spin_unlock: LDXR
    | UnlockStore(cpu: nat)  // spin_unlock: test, STXR, result ignored
    | Disturb(cpu: nat)      // the CPU's monitor is cleared for some other reason

  function Initial(cpus: nat): (s: State)
    ensures Shape(s)
  {
    State(Word(0, seq(cpus, _ => false)), seq(cpus, _ => Outside))
  }

  predicate Shape(s: State) { |s.word.armed| == |s.pc| }

  predicate Enabled(s: State, step: Step) {
    && Shape(s) && step.cpu < |s.pc|
    && match step
       case LockLoad(c) => s.pc[c] == Outside
       case LockStore(c) => s.pc[c].Locking?
       case UnlockLoad(c) => s.pc[c] == Holding
       case UnlockStore(c) => s.pc[c].Unlocking?
       case Disturb(c) => true
  }

  function Next(s: State, step: Step): (t: State)
    requires Enabled(s, step)
    ensures Shape(t)
  {
    match step
    case LockLoad(c) => State(Ldxr(s.word, c), s.pc[c := Locking(s.word.value)])
    case LockStore(c) =>
      if s.pc[c].v != 0 then s.(pc := s.pc[c := Outside])
      else State(Stxr(s.word, c, 1), s.pc[c := if s.word.armed[c] then Holding else Outside])
    case UnlockLoad(c) => State(Ldxr(s.word, c), s.pc[c := Unlocking(s.word.value)])
    case UnlockStore(c) =>
      State(if s.pc[c].v == 1 then Stxr(s.word, c, 0) else s.word, s.pc[c := Outside])
    case Disturb(c) => s.(word := s.word.(armed := s.word.armed[c := false]))
  }

  function Run(s: State, steps: seq<Step>): State
    decreases |steps|
  {
    if steps == [] then s else Run(if Enabled(s, steps[0]) then Next(s, steps[0]) else s, steps[1..])
  }

  /** The two instructions of spin_lock, and those of spin_unlock, when nothing comes between them. */
  lemma Rounds(s: State, c: nat)
    requires Shape(s) && c < |s.pc|
    ensures s.pc[c] == Outside ==>
              var t := Next(Next(s, LockLoad(c)), LockStore(c));
              && t.pc == s.pc[c := if s.word.value == 0 then Holding else Outside]
              && t.word.value == if s.word.value == 0 then 1 else s.word.value
    ensures s.pc[c] == Holding ==>
              var t := Next(Next(s, UnlockLoad(c)), UnlockStore(c));
              && t.pc == s.pc[c := Outside] && t.word.value == if s.word.value == 1 then 0 else s.word.value
  {
  }

  predicate Owns(p: Pc) { p == Holding || p.Unlocking? }

  ghost predicate OneOwner(s: State) {
    forall c, d :: 0 <= c < |s.pc| && 0 <= d < |s.pc| && Owns(s.pc[c]) && Owns(s.pc[d]) ==> c == d
  }

  /** What keeps the lock safe: a CPU about to take it with an armed monitor has seen a word that is still zero. */
  ghost predicate Safe(s: State) {
    && Shape(s) && OneOwner(s)
    && (s.word.value == 0 || s.word.value == 1)
    && (forall c :: 0 <= c < |s.pc| && Owns(s.pc[c]) ==> s.word.value == 1)
    && (forall c :: 0 <= c < |s.pc| && s.pc[c].Unlocking? ==> s.pc[c].v == 1)
    && (forall c :: 0 <= c < |s.pc| && s.pc[c].Locking? && s.pc[c].v == 0 && s.word.armed[c] ==> s.word.value == 0)
  }

  lemma StepSafe(s: State, step: Step)
    requires Safe(s) && Enabled(s, step)
    ensures Safe(Next(s, step))
  {
  }

  lemma {:induction false} RunSafe(s: State, steps: seq<Step>)
    requires Safe(s)
    ensures Safe(Run(s, steps))
    decreases |steps|
  {
    hide Safe, Next;
    if steps != [] {
      if Enabled(s, steps[0]) {
        StepSafe(s, steps[0]);
        RunSafe(Next(s, steps[0]), steps[1..]);
      } else {
        RunSafe(s, steps[1..]);
      }
    }
  }

  /** At most one CPU is between spin_lock and the end of spin_unlock, whatever disturbs the monitors. */
  lemma MutualExclusion(cpus: nat, steps: seq<Step>)
    ensures OneOwner(Run(Initial(cpus), steps))
  {
    RunSafe(Initial(cpus), steps);
  }

  // ---------------------------------------------------------------------------------------
  // The unchecked store of spin_unlock

  /** No monitor is disturbed between the two instructions of a spin_unlock. */
  ghost predicate Undisturbed(s: State, steps: seq<Step>)
    decreases |steps|
  {
    steps == [] ||
    (if Enabled(s, steps[0]) then
       !(steps[0].Disturb? && s.pc[steps[0].cpu].Unlocking?) && Undisturbed(Next(s, steps[0]), steps[1..])
     else Undisturbed(s, steps[1..]))
  }

  /** The lock is taken only while it has an owner, and an unlocking CPU's monitor stays armed. */
  ghost predicate Live(s: State) {
    && Safe(s)
    && (s.word.value == 1 ==> exists c :: 0 <= c < |s.pc| && Owns(s.pc[c]))
    && (forall c :: 0 <= c < |s.pc| && s.pc[c].Unlocking? ==> s.word.armed[c])
  }

  lemma StepLive(s: State, step: Step)
    requires Live(s) && Enabled(s, step) && !(step.Disturb? && s.pc[step.cpu].Unlocking?)
    ensures Live(Next(s, step))
  {
    StepSafe(s, step);
    var t := Next(s, step);
    if t.word.value == 1 {
      if s.word.value == 1 {
        var c :| 0 <= c < |s.pc| && Owns(s.pc[c]);
        assert Owns(t.pc[c]);
      } else {
        assert Owns(t.pc[step.cpu]);
      }
    }
  }

  lemma {:induction false} RunLive(s: State, steps: seq<Step>)
    requires Live(s) && Undisturbed(s, steps)
    ensures Live(Run(s, steps))
    decreases |steps|
  {
    hide Live, Next;
    if steps != [] {
      if Enabled(s, steps[0]) {
        StepLive(s, steps[0]);
        RunLive(Next(s, steps[0]), steps[1..]);
      } else {
        RunLive(s, steps[1..]);
      }
    }
  }

  /** If only other CPUs' stores clear a monitor, the store of every spin_unlock takes effect. */
  lemma UnlockTakesEffect(cpus: nat, steps: seq<Step>, cpu: nat)
    requires Undisturbed(Initial(cpus), steps)
    requires Enabled(Run(Initial(cpus), steps), UnlockStore(cpu))
    ensures Next(Run(Initial(cpus), steps), UnlockStore(cpu)).word.value == 0
  {
    RunLive(Initial(cpus), steps);
  }

  /** The word says taken, but no CPU holds the lock or is on its way to. */
  ghost predicate Wedged(s: State) {
    && Shape(s) && s.word.value == 1
    && (forall c :: 0 <= c < |s.pc| ==> !Owns(s.pc[c]))
    && (forall c :: 0 <= c < |s.pc| && s.pc[c].Locking? && s.pc[c].v == 0 ==> !s.word.armed[c])
  }

  /** Once wedged, nobody ever gets the lock again. */
  lemma {:induction false} WedgedForever(s: State, steps: seq<Step>)
    requires Wedged(s)
    ensures Wedged(Run(s, steps))
    decreases |steps|
  {
    if steps != [] {
      if Enabled(s, steps[0]) {
        WedgedForever(Next(s, steps[0]), steps[1..]);
      } else {
        WedgedForever(s, steps[1..]);
      }
    }
  }

  lemma RunStep(s: State, step: Step, rest: seq<Step>)
    requires Enabled(s, step)
    ensures Run(s, [step] + rest) == Run(Next(s, step), rest)
  {
    assert ([step] + rest)[1..] == rest;
  }

  /** Because the result of the unlocking STXR is ignored, one disturbed monitor loses the lock for good. */
  lemma DisturbedUnlockWedges(cpus: nat, cpu: nat) returns (steps: seq<Step>)
    requires cpu < cpus
    ensures Wedged(Run(Initial(cpus), steps))
  {
    var s0 := Initial(cpus);
    var s1 := Next(s0, LockLoad(cpu));
    var s2 := Next(s1, LockStore(cpu));
    var s3 := Next(s2, UnlockLoad(cpu));
    var s4 := Next(s3, Disturb(cpu));
    var s5 := Next(s4, UnlockStore(cpu));
    steps := [LockLoad(cpu)] + ([LockStore(cpu)] + ([UnlockLoad(cpu)] + ([Disturb(cpu)] + ([UnlockStore(cpu)] + []))));
    RunStep(s0, LockLoad(cpu), [LockStore(cpu)] + ([UnlockLoad(cpu)] + ([Disturb(cpu)] + ([UnlockStore(cpu)] + []))));
    RunStep(s1, LockStore(cpu), [UnlockLoad(cpu)] + ([Disturb(cpu)] + ([UnlockStore(cpu)] + [])));
    RunStep(s2, UnlockLoad(cpu), [Disturb(cpu)] + ([UnlockStore(cpu)] + []));
    RunStep(s3, Disturb(cpu), [UnlockStore(cpu)] + []);
    RunStep(s4, UnlockStore(cpu), []);
  }

  /** The step is a store of spin_unlock that does not take effect. */
  predicate LosesStore(s: State, step: Step) {
    Enabled(s, step) && step.UnlockStore? && s.pc[step.cpu].v == 1 && !s.word.armed[step.cpu]
  }

  /** Some spin_unlock of the run loses its store. */
  predicate FailedUnlock(s: State, steps: seq<Step>)
    decreases |steps|
  {
    steps != [] &&
    if Enabled(s, steps[0]) then LosesStore(s, steps[0]) || FailedUnlock(Next(s, steps[0]), steps[1..])
    else FailedUnlock(s, steps[1..])
  }

  /** The lock is taken only while it has an owner. */
  ghost predicate Held(s: State) {
    Safe(s) && (s.word.value == 1 ==> exists c :: 0 <= c < |s.pc| && Owns(s.pc[c]))
  }

  lemma StepHeld(s: State, step: Step)
    requires Held(s) && Enabled(s, step) && !LosesStore(s, step)
    ensures Held(Next(s, step))
  {
    StepSafe(s, step);
    var t := Next(s, step);
    if t.word.value == 1 {
      if s.word.value == 1 {
        var c :| 0 <= c < |s.pc| && Owns(s.pc[c]);
        assert Owns(t.pc[c]);
      } else {
        assert Owns(t.pc[step.cpu]);
      }
    }
  }

  /** A lost store wedges the lock at once. */
  lemma LostStoreWedges(s: State, step: Step)
    requires Safe(s) && LosesStore(s, step)
    ensures Wedged(Next(s, step))
  {
    assert Owns(s.pc[step.cpu]);
  }

  lemma {:induction false} WedgedIff(s: State, steps: seq<Step>)
    requires Held(s)
    ensures Wedged(Run(s, steps)) <==> FailedUnlock(s, steps)
    decreases |steps|
  {
    hide Safe;
    if steps != [] {
      var t := if Enabled(s, steps[0]) then Next(s, steps[0]) else s;
      if LosesStore(s, steps[0]) {
        LostStoreWedges(s, steps[0]);
        WedgedForever(t, steps[1..]);
      } else {
        if Enabled(s, steps[0]) { StepHeld(s, steps[0]); }
        WedgedIff(t, steps[1..]);
      }
    }
  }

  /** A run ends with the lock lost for good if and only if some spin_unlock of it lost its store. */
  lemma LostLockIff(cpus: nat, steps: seq<Step>)
    ensures Wedged(Run(Initial(cpus), steps)) <==> FailedUnlock(Initial(cpus), steps)
  {
    WedgedIff(Initial(cpus), steps);
  }

  /** A run can end wedged only if a monitor was disturbed inside a spin_unlock. */
  lemma WedgedOnlyIfDisturbed(cpus: nat, steps: seq<Step>)
    requires Wedged(Run(Initial(cpus), steps))
    ensures !Undisturbed(Initial(cpus), steps)
  {
    if Undisturbed(Initial(cpus), steps) {
      RunLive(Initial(cpus), steps);
      assert false;
    }
  }

  // ---------------------------------------------------------------------------------------
  // The code

  /** The lock word in memory, seen by CPUs that execute one instruction pair at a time. */
  class SpinWord {
    var value: nat
    var armed: seq<bool>

    ghost function View(): Word
      reads this
    {
      Word(value, armed)
    }

    constructor (n: nat)
      ensures View() == Initial(n).word
    {
      value := 0;
      armed := seq(n, _ => false);
    }

    /** ldxr_func. */
    method LoadExclusive(cpu: nat) returns (state: nat)
      requires cpu < |armed|
      modifies this`armed
      ensures View() == Ldxr(old(View()), cpu) && state == value
    {
      armed := armed[cpu := true];
      state := value;
    }

    /** stxr_func: 0 for success. */
    method StoreExclusive(cpu: nat, v: nat) returns (ret: nat)
      requires cpu < |armed|
      modifies this
      ensures View() == Stxr(old(View()), cpu, v)
      ensures ret == if old(armed)[cpu] then 0 else 1
    {
      if armed[cpu] {
        value := v;
        armed := seq(|armed|, _ => false);
        ret := 0;
      } else {
        ret := 1;
      }
    }

    /** One round of spin_lock's loop that no other CPU interrupts. */
    method LockRound(cpu: nat) returns (taken: bool)
      requires cpu < |armed|
      modifies this
      ensures taken == (old(value) == 0)
      ensures value == if taken then 1 else old(value)
    {
      var state := LoadExclusive(cpu);
      taken := false;
      if state == 0 {
        var ret := StoreExclusive(cpu, 1);
        taken := ret == 0;
      }
    }

    /** spin_unlock that no other CPU interrupts. */
    method UnlockRound(cpu: nat)
      requires cpu < |armed|
      modifies this
      ensures value == if old(value) == 1 then 0 else old(value)
    {
      var state := LoadExclusive(cpu);
      if state == 1 {
        var ret := StoreExclusive(cpu, 0);
      }
    }
  }
}
