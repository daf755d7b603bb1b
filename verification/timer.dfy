/**
 * The timer list (kernel/timer.c): an intrusive singly linked list, and the soft interrupt that
 * fires the timers due at a tick. A callback may queue its own timer again, and does nothing else
 * to the list.
 */
module TimerList {

  /** A queued timer with its expiry tick. */
  datatype Entry<T> = Entry(timer: T, expires: nat)

  // ---------------------------------------------------------------------------------------
  // What the soft interrupt does to the list, on values

  function Due<T>(es: seq<Entry<T>>, tick: nat): (r: seq<Entry<T>>)
    ensures |r| <= |es|
  {
    if es == [] then [] else if es[0].expires == tick then [es[0]] + Due(es[1..], tick) else Due(es[1..], tick)
  }

  function Rest<T>(es: seq<Entry<T>>, tick: nat): seq<Entry<T>> {
    if es == [] then [] else if es[0].expires == tick then Rest(es[1..], tick) else [es[0]] + Rest(es[1..], tick)
  }

  function Timers<T>(es: seq<Entry<T>>): (ts: seq<T>)
    ensures |ts| == |es| && forall i :: 0 <= i < |es| ==> ts[i] == es[i].timer
  {
    seq(|es|, i requires 0 <= i < |es| => es[i].timer)
  }

  /** The entry a callback queues: `rearm` maps the timers that rearm themselves to the new expiry. */
  function Requeued<T(==)>(t: T, rearm: map<T, nat>): seq<Entry<T>> {
    if t in rearm then [Entry(t, rearm[t])] else []
  }

  /** What the callbacks of the fired timers queue; a timer is queued in front of those queued earlier. */
  function Rearmed<T(==)>(fired: seq<Entry<T>>, rearm: map<T, nat>): seq<Entry<T>> {
    if fired == [] then [] else Rearmed(fired[1..], rearm) + Requeued(fired[0].timer, rearm)
  }

  /** The list after the soft interrupt. */
  function Final<T(==)>(es: seq<Entry<T>>, tick: nat, rearm: map<T, nat>): seq<Entry<T>> {
    Rearmed(Due(es, tick), rearm) + Rest(es, tick)
  }

  /** No timer is due in `es`. */
  predicate Quiet<T>(es: seq<Entry<T>>, tick: nat) {
    forall i :: 0 <= i < |es| ==> es[i].expires != tick
  }

  /** A due timer asks for the tick that is being handled. */
  predicate RearmsNow<T(==)>(es: seq<Entry<T>>, tick: nat, rearm: map<T, nat>) {
    exists i :: 0 <= i < |es| && AsksNow(es[i], tick, rearm)
  }

  predicate AsksNow<T(==)>(e: Entry<T>, tick: nat, rearm: map<T, nat>) {
    e.expires == tick && e.timer in rearm && rearm[e.timer] == tick
  }

  function Without<T>(es: seq<T>, k: nat): seq<T>
    requires k < |es|
  {
    es[..k] + es[k + 1..]
  }

  /** Entry `k` fires. */
  function Fire<T(==)>(es: seq<Entry<T>>, k: nat, rearm: map<T, nat>): seq<Entry<T>>
    requires k < |es|
  {
    Requeued(es[k].timer, rearm) + Without(es, k)
  }

  /** The first due entry, |es| if none. */
  function FirstDue<T>(es: seq<Entry<T>>, tick: nat): (k: nat)
    ensures k <= |es| && Quiet(es[..k], tick) && (k < |es| ==> es[k].expires == tick)
  {
    if es == [] || es[0].expires == tick then 0
    else
      var k := FirstDue(es[1..], tick);
      assert es[..k + 1] == [es[0]] + es[1..][..k];
      k + 1
  }

  lemma FirstDueIs<T>(es: seq<Entry<T>>, tick: nat)
    ensures var k := FirstDue(es, tick);
            k <= |es| && Quiet(es[..k], tick) && if k < |es| then es[k].expires == tick else Quiet(es, tick) && Due(es, tick) == []
  {
    assert es[..|es|] == es;
    if FirstDue(es, tick) == |es| { QuietParts(es, tick); }
  }

  /** One turn of the loop of the soft interrupt, from the head of the list to the next firing. */
  function Step<T(==)>(es: seq<Entry<T>>, tick: nat, rearm: map<T, nat>): seq<Entry<T>> {
    var k := FirstDue(es, tick);
    if k < |es| then Fire(es, k, rearm) else es
  }

  function Iterate<T(==)>(es: seq<Entry<T>>, tick: nat, rearm: map<T, nat>, n: nat): seq<Entry<T>> {
    if n == 0 then es else Step(Iterate(es, tick, rearm, n - 1), tick, rearm)
  }

  /** Entries that are not due pass a due one by. */
  lemma {:induction false} QuietPrefix<T>(pre: seq<Entry<T>>, es: seq<Entry<T>>, tick: nat)
    requires Quiet(pre, tick)
    ensures Due(pre + es, tick) == Due(es, tick)
    ensures Rest(pre + es, tick) == pre + Rest(es, tick)
  {
    if pre == [] {
      assert pre + es == es;
    } else {
      assert (pre + es)[1..] == pre[1..] + es && (pre + es)[0] == pre[0];
      assert forall i :: 0 <= i < |pre[1..]| ==> pre[1..][i] == pre[i + 1];
      QuietPrefix(pre[1..], es, tick);
    }
  }

  lemma QuietParts<T>(es: seq<Entry<T>>, tick: nat)
    requires Quiet(es, tick)
    ensures Due(es, tick) == [] && Rest(es, tick) == es
  {
    QuietPrefix(es, [], tick);
    assert es + [] == es;
  }

  lemma FinalQuiet<T>(es: seq<Entry<T>>, tick: nat, rearm: map<T, nat>)
    requires Quiet(es, tick)
    ensures Final(es, tick, rearm) == es
  {
    QuietParts(es, tick);
    assert Rearmed([], rearm) + es == es;
  }

  /** Firing the first due timer removes it from the due ones, and puts what it queues in front of the others. */
  lemma FireParts<T>(es: seq<Entry<T>>, k: nat, tick: nat, rearm: map<T, nat>)
    requires k < |es| && Quiet(es[..k], tick) && es[k].expires == tick && !AsksNow(es[k], tick, rearm)
    ensures var fs := Fire(es, k, rearm);
            && Due(es, tick) == [es[k]] + Due(fs, tick)
            && Rest(fs, tick) == Requeued(es[k].timer, rearm) + Rest(es, tick)
            && Final(fs, tick, rearm) == Final(es, tick, rearm)
  {
    var e, r, pre, post := es[k], Requeued(es[k].timer, rearm), es[..k], es[k + 1..];
    assert es == pre + ([e] + post) && Fire(es, k, rearm) == r + (pre + post);
    assert Due([e] + post, tick) == [e] + Due(post, tick) && Rest([e] + post, tick) == Rest(post, tick) by {
      assert ([e] + post)[1..] == post;
    }
    FinalFront(e, Due(post, tick), pre + Rest(post, tick), rearm);
    assert Quiet(r, tick);
    hide Due, Rest, Quiet, Fire, Requeued, Rearmed;
    QuietPrefix(pre, [e] + post, tick);
    QuietPrefix(pre, post, tick);
    QuietPrefix(r, pre + post, tick);
  }

  lemma FinalFront<T>(e: Entry<T>, due: seq<Entry<T>>, rest: seq<Entry<T>>, rearm: map<T, nat>)
    ensures Rearmed([e] + due, rearm) + rest == Rearmed(due, rearm) + (Requeued(e.timer, rearm) + rest)
  {
    assert ([e] + due)[1..] == due;
  }

  /** No due timer of the list after a firing asks for this tick, unless one did before. */
  lemma FireAsks<T>(es: seq<Entry<T>>, k: nat, tick: nat, rearm: map<T, nat>)
    requires k < |es| && es[k].expires == tick
    ensures RearmsNow(Fire(es, k, rearm), tick, rearm) <==> RearmsNow(es, tick, rearm)
  {
    var r, fs := Requeued(es[k].timer, rearm), Fire(es, k, rearm);
    forall i | 0 <= i < |es| && AsksNow(es[i], tick, rearm) ensures RearmsNow(fs, tick, rearm) {
      var j := if i == k then 0 else if i < k then |r| + i else |r| + i - 1;
      assert AsksNow(fs[j], tick, rearm);
    }
    forall j | 0 <= j < |fs| && AsksNow(fs[j], tick, rearm) ensures RearmsNow(es, tick, rearm) {
      var i := if j < |r| then k else if j - |r| < k then j - |r| else j - |r| + 1;
      assert AsksNow(es[i], tick, rearm);
    }
  }

  lemma AskerIsDue<T>(es: seq<Entry<T>>, tick: nat, rearm: map<T, nat>)
    requires RearmsNow(es, tick, rearm)
    ensures !Quiet(es, tick)
  {
  }

  lemma {:induction false} Persists<T>(es: seq<Entry<T>>, tick: nat, rearm: map<T, nat>, n: nat)
    requires RearmsNow(es, tick, rearm)
    ensures RearmsNow(Iterate(es, tick, rearm, n), tick, rearm) && !Quiet(Iterate(es, tick, rearm, n), tick)
  {
    hide FirstDue, Fire, RearmsNow, Quiet, Due;
    if n > 0 {
      Persists(es, tick, rearm, n - 1);
      var fs := Iterate(es, tick, rearm, n - 1);
      var k := FirstDue(fs, tick);
      FirstDueIs(fs, tick);
      FireAsks(fs, k, tick, rearm);
    }
    AskerIsDue(Iterate(es, tick, rearm, n), tick, rearm);
  }

  /** Every firing uses up one due timer. */
  lemma {:induction false} Progress<T>(es: seq<Entry<T>>, tick: nat, rearm: map<T, nat>, n: nat)
    requires !RearmsNow(es, tick, rearm) && n <= |Due(es, tick)|
    ensures var fs := Iterate(es, tick, rearm, n);
            && !RearmsNow(fs, tick, rearm) && Final(fs, tick, rearm) == Final(es, tick, rearm)
            && Due(fs, tick) == Due(es, tick)[n..]
  {
    if n > 0 {
      Progress(es, tick, rearm, n - 1);
      var fs := Iterate(es, tick, rearm, n - 1);
      var k := FirstDue(fs, tick);
      FirstDueIs(fs, tick);
      assert k < |fs| && !AsksNow(fs[k], tick, rearm);
      hide Due, Rest, Final, FirstDue, Fire;
      FireParts(fs, k, tick, rearm);
      FireAsks(fs, k, tick, rearm);
      assert Due(fs, tick) == Due(es, tick)[n - 1..];
    }
  }

  lemma {:induction false} DueQuiet<T>(es: seq<Entry<T>>, tick: nat)
    requires Due(es, tick) == []
    ensures Quiet(es, tick)
  {
    if es != [] {
      DueQuiet(es[1..], tick);
      forall i | 0 <= i < |es| ensures es[i].expires != tick { if i > 0 { assert es[i] == es[1..][i - 1]; } }
    }
  }

  /**
   * The loop of the soft interrupt, which starts again from the head after every callback, comes to an
   * end if and only if no due timer rearms itself for the same tick.
   */
  lemma EndsIff<T>(es: seq<Entry<T>>, tick: nat, rearm: map<T, nat>)
    ensures (exists n: nat :: Quiet(Iterate(es, tick, rearm, n), tick)) <==> !RearmsNow(es, tick, rearm)
    ensures !RearmsNow(es, tick, rearm) ==> Iterate(es, tick, rearm, |Due(es, tick)|) == Final(es, tick, rearm)
  {
    if RearmsNow(es, tick, rearm) {
      forall n: nat ensures !Quiet(Iterate(es, tick, rearm, n), tick) { Persists(es, tick, rearm, n); }
    } else {
      var n := |Due(es, tick)|;
      Progress(es, tick, rearm, n);
      var fs := Iterate(es, tick, rearm, n);
      DueQuiet(fs, tick);
      QuietParts(fs, tick);
      FinalQuiet(fs, tick, rearm);
    }
  }

  // ---------------------------------------------------------------------------------------
  // The code

  class Timer {
    var next: Timer?
    var expires: nat
    constructor ()
      ensures next == null && expires == 0
    { next, expires := null, 0; }
  }

  /** The nodes reached from `head` are those of `list`, all different: the list is acyclic. */
  ghost predicate Linked(head: Timer?, list: seq<Timer>)
    reads list
  {
    Chain(head, list, Nexts(list))
  }

  ghost function Nexts(list: seq<Timer>): (ns: seq<Timer?>)
    reads list
    ensures |ns| == |list| && forall i :: 0 <= i < |list| ==> ns[i] == list[i].next
  {
    seq(|list|, i requires 0 <= i < |list| reads list => list[i].next)
  }

  ghost predicate Chain(head: Timer?, list: seq<Timer>, nexts: seq<Timer?>) {
    && head == At(list, 0) && |nexts| == |list|
    && (forall i :: 0 <= i < |list| ==> nexts[i] == At(list, i + 1))
    && (forall i, j :: 0 <= i < j < |list| ==> list[i] != list[j])
  }

  lemma LinkedAt(head: Timer?, list: seq<Timer>, i: nat)
    requires Linked(head, list)
    ensures head == At(list, 0) && (i < |list| ==> list[i].next == At(list, i + 1))
    ensures forall k :: 0 <= k < |list| && i < |list| && list[k] == list[i] ==> k == i
  {
  }

  lemma ChainAt(head: Timer?, list: seq<Timer>, nexts: seq<Timer?>, at: nat)
    requires Chain(head, list, nexts) && at < |list|
    ensures head == list[0] && nexts[at] == At(list, at + 1)
    ensures forall i :: 0 <= i < |list| && i != at ==> list[i] != list[at]
    ensures at > 0 ==> forall i :: 0 <= i < |list| && i != at - 1 ==> list[i] != list[at - 1]
  {
  }

  lemma UnlinkedChain(head: Timer?, list: seq<Timer>, nexts: seq<Timer?>, at: nat)
    requires Chain(head, list, nexts) && at < |list|
    ensures if at == 0 then Chain(nexts[0], Without(list, 0), nexts[1..])
            else Chain(head, Without(list, at), nexts[..at - 1] + [nexts[at]] + nexts[at + 1..])
  {
  }

  ghost function At(list: seq<Timer>, i: nat): Timer? {
    if i < |list| then list[i] else null
  }

  class Queue {
    var head: Timer?
    ghost var list: seq<Timer>

    ghost predicate Valid()
      reads this, list
    {
      Linked(head, list)
    }

    /** The queued timers in order, with their expiries. */
    ghost function View(): (es: seq<Entry<Timer>>)
      reads this, list
      ensures |es| == |list| && forall i :: 0 <= i < |es| ==> es[i] == Entry(list[i], list[i].expires)
    {
      seq(|list|, i requires 0 <= i < |list| reads this, list => Entry(list[i], list[i].expires))
    }

    constructor ()
      ensures Valid() && list == []
    {
      head, list := null, [];
    }

    /** What the list says of single timers. */
    lemma QueuedNow()
      requires Valid()
      ensures Different(Timers(View())) && Timers(View()) == list
      ensures forall t: Timer, x: nat :: Queued(View(), t, x) <==> t in list && t.expires == x
    {
      var es := View();
      forall t: Timer, x: nat ensures Queued(es, t, x) <==> t in list && t.expires == x {
        if t in list && t.expires == x {
          var k :| 0 <= k < |list| && list[k] == t;
          assert es[k] == Entry(t, x);
        }
      }
    }

    /** _add_timer. Queueing a timer twice makes the list cyclic: no list of different nodes describes it any more. */
    method AddTimer(p: Timer)
      requires Valid()
      modifies this, p`next
      ensures list == [p] + old(list)
      ensures Valid() <==> p !in old(list)
      ensures p in old(list) ==> forall l: seq<Timer> :: !Linked(head, l)
    {
      ghost var was := list;
      p.next := head;
      head := p;
      list := [p] + list;
      if p in was {
        forall l: seq<Timer> ensures !Linked(head, l) {
          Cycle(p, was, l);
        }
      }
    }

    /** The body of the loop of _del_timer: the node at place `at` is unlinked. */
    method Unlink(prev: Timer?, cur: Timer, ghost at: nat)
      requires Valid() && at < |list| && list[at] == cur && prev == if at == 0 then null else list[at - 1]
      modifies this, prev, cur
      ensures Valid() && list == Without(old(list), at) && cur.next == null
      ensures prev != null ==> prev.expires == old(prev.expires)
      ensures cur.expires == old(cur.expires)
    {
      hide Chain;
      ghost var was, ns := list, Nexts(list);
      ChainAt(head, was, ns, at);
      UnlinkedChain(head, was, ns, at);
      if prev != null {
        prev.next := cur.next;
      }
      if head == cur {
        head := cur.next;
      }
      cur.next := null;
      list := Without(was, at);
      assert Nexts(list) == if at == 0 then ns[1..] else ns[..at - 1] + [ns[at]] + ns[at + 1..];
    }

    /** _del_timer: unlinks the timer if it is queued, at place `at`. */
    method DelTimer(p: Timer) returns (ghost at: nat)
      requires Valid()
      modifies this, list
      ensures Valid()
      ensures at == |old(list)| ==> p !in old(list) && list == old(list) && head == old(head)
      ensures at != |old(list)| ==> at < |old(list)| && old(list)[at] == p && list == Without(old(list), at) && p.next == null
      ensures p !in list
      ensures forall t: Timer :: t in old(list) ==> t.expires == old(t.expires)
    {
      hide Linked;
      LinkedAt(head, list, 0);
      var prev: Timer?, cur := null, head;
      at := 0;
      while cur != null && cur != p
        invariant at <= |list| && cur == At(list, at) && p !in list[..at]
        invariant prev == if at == 0 then null else list[at - 1]
        modifies {}
        decreases |list| - at
      {
        LinkedAt(head, list, at);
        prev, cur := cur, cur.next;
        at := at + 1;
      }
      if cur != null {
        LinkedAt(head, list, at);
        Unlink(prev, cur, at);
      }
    }

    /** _mod_timer: whatever the list was, the timer is now queued once, in front, with the new expiry. */
    method ModTimer(p: Timer, expires: nat) returns (ghost at: nat)
      requires Valid()
      modifies this, list, p
      ensures Valid() && p.expires == expires
      ensures at == |old(list)| ==> p !in old(list) && list == [p] + old(list)
      ensures at != |old(list)| ==> at < |old(list)| && old(list)[at] == p && list == [p] + Without(old(list), at)
      ensures forall t: Timer :: t in old(list) && t != p ==> t.expires == old(t.expires)
    {
      at := DelTimer(p);
      p.expires := expires;
      AddTimer(p);
    }

    /** The body of the loop for a due timer: it is unlinked, and its callback may queue it again. */
    method FireTimer(timer: Timer, rearm: map<Timer, nat>, ghost i: nat)
      requires Valid() && i < |list| && list[i] == timer
      modifies this, list
      ensures Valid() && View() == Fire(old(View()), i, rearm)
      ensures forall k :: 0 <= k < |list| ==> list[k] in old(list)
    {
      hide Linked;
      ghost var was := list;
      LinkedAt(head, list, i);
      ghost var at := DelTimer(timer);
      assert list == Without(was, i);
      assert forall k :: 0 <= k < |list| ==> list[k] in was;
      assert View() == Without(old(View()), i);
      if timer in rearm {
        at := ModTimer(timer, rearm[timer]);
      }
    }

    /**
     * run_timer_softirq: fires the timers due at `tick`, each once and in list order, and leaves the
     * others queued in their order behind those that were rearmed. `rearm` says what the callbacks do.
     */
    method RunTimerSoftirq(tick: nat, rearm: map<Timer, nat>) returns (ghost fired: seq<Timer>)
      requires Valid() && !RearmsNow(View(), tick, rearm)
      modifies this, list
      ensures Valid()
      ensures View() == Final(old(View()), tick, rearm) && Quiet(View(), tick)
      ensures fired == Timers(Due(old(View()), tick))
      ensures forall t: Timer :: t in fired <==> t in old(list) && old(t.expires) == tick
      ensures forall i, j :: 0 <= i < j < |fired| ==> fired[i] != fired[j]
      ensures forall t: Timer :: t in list <==> (t in old(list) && old(t.expires) != tick) || (t in fired && t in rearm)
      ensures forall t: Timer :: t in list ==> t.expires != tick
      ensures forall t: Timer :: t in list ==> t.expires == if t in fired then rearm[t] else old(t.expires)
    {
      hide Linked, Due, Final, RearmsNow, FirstDue, Fire, Iterate, Timers, Queued, Different;
      QueuedNow();
      DueOnce(View(), tick);
      ghost var es0 := View();
      ghost var was := list;
      ghost var n := 0;
      assert View() == Iterate(es0, tick, rearm, 0) by { IterateNone(es0, tick, rearm); }
      var cur := head;
      ghost var i := 0;
      fired := [];
      LinkedAt(head, list, 0);
      while cur != null
        invariant Valid() && 0 <= i <= |list| && cur == At(list, i)
        invariant forall k :: 0 <= k < |list| ==> list[k] in was
        invariant n <= |Due(es0, tick)| && View() == Iterate(es0, tick, rearm, n)
        invariant Quiet(View()[..i], tick)
        invariant fired == Timers(Due(es0, tick)[..n])
        decreases |Due(es0, tick)| - n, |list| - i
      {
        ghost var es := View();
        var timer: Timer := cur;
        if timer.expires == tick {
          Turn(es0, tick, rearm, n, i);
          FireTimer(timer, rearm, i);
          fired := fired + [timer];
          n := n + 1;
          cur := head;
          i := 0;
          LinkedAt(head, list, 0);
        } else {
          assert es[..i + 1] == es[..i] + [es[i]];
          LinkedAt(head, list, i);
          cur := cur.next;
          i := i + 1;
        }
      }
      assert View()[..|list|] == View();
      Ended(es0, tick, rearm, n);
      assert Due(es0, tick)[..n] == Due(es0, tick);
      QueuedNow();
      ghost var es1 := View();
      forall t: Timer ensures t in fired <==> t in was && old(t.expires) == tick {
        Fires(es0, tick, t);
        QueuedIn(es0, t);
      }
      forall t: Timer
        ensures t in list <==> (t in was && old(t.expires) != tick) || (t in fired && t in rearm)
        ensures t in list ==> t.expires == if t in fired then rearm[t] else old(t.expires)
      {
        QueuedIn(es0, t);
        Became(es0, es1, tick, rearm, t, t in was, if t in was then old(t.expires) else 0, t in list, t.expires);
      }
    }
  }

  lemma {:induction false} DueWhere<T>(es: seq<Entry<T>>, tick: nat, e: Entry<T>)
    ensures e in Due(es, tick) <==> e in es && e.expires == tick
    ensures e in Rest(es, tick) <==> e in es && e.expires != tick
  {
    if es != [] {
      assert es == [es[0]] + es[1..];
      DueWhere(es[1..], tick, e);
    }
  }

  lemma {:induction false} RearmedWhere<T>(fired: seq<Entry<T>>, rearm: map<T, nat>, e: Entry<T>)
    ensures e in Rearmed(fired, rearm) <==> e.timer in Timers(fired) && e.timer in rearm && e.expires == rearm[e.timer]
  {
    if fired != [] {
      RearmedWhere(fired[1..], rearm, e);
      assert Timers(fired) == [fired[0].timer] + Timers(fired[1..]);
    }
  }

  ghost predicate Different<T>(ts: seq<T>) { forall i, j :: 0 <= i < j < |ts| ==> ts[i] != ts[j] }

  lemma {:induction false} DueOnce<T>(es: seq<Entry<T>>, tick: nat)
    requires Different(Timers(es))
    ensures Different(Timers(Due(es, tick)))
  {
    if es != [] {
      var ts, ds := Timers(es), Timers(Due(es[1..], tick));
      assert Timers(es[1..]) == ts[1..];
      DueOnce(es[1..], tick);
      if es[0].expires == tick {
        assert Timers(Due(es, tick)) == [es[0].timer] + ds;
        forall k | 0 <= k < |ds| ensures ds[k] != es[0].timer {
          DueWhere(es[1..], tick, Due(es[1..], tick)[k]);
          var j :| 0 <= j < |es[1..]| && es[1..][j] == Due(es[1..], tick)[k];
          assert ts[j + 1] == ds[k];
        }
      }
    }
  }

  ghost predicate Queued<T>(es: seq<Entry<T>>, t: T, expires: nat) { exists k :: 0 <= k < |es| && es[k] == Entry(t, expires) }

  /** What becomes of a timer that was queued, if `q0`, for tick `x0`, and is now, if `q1`, for tick `x1`. */
  lemma Became<T>(es: seq<Entry<T>>, fs: seq<Entry<T>>, tick: nat, rearm: map<T, nat>, t: T, q0: bool, x0: nat, q1: bool, x1: nat)
    requires fs == Final(es, tick, rearm)
    requires forall x: nat :: Queued(es, t, x) <==> q0 && x == x0
    requires forall x: nat :: Queued(fs, t, x) <==> q1 && x == x1
    ensures var fired := t in Timers(Due(es, tick));
            && (q1 <==> (q0 && x0 != tick) || (fired && t in rearm))
            && (q1 && fired ==> t in rearm && x1 == rearm[t])
            && (q1 && !fired ==> x1 == x0)
  {
    hide Final, Queued, Timers, Due;
    Fires(es, tick, t);
    Stays(es, tick, rearm, t);
    assert q0 ==> Queued(es, t, x0);
    assert q1 ==> Queued(fs, t, x1);
    assert t in rearm ==> (Queued(fs, t, rearm[t]) <==> q1 && rearm[t] == x1);
    assert q0 ==> (Queued(fs, t, x0) <==> q1 && x0 == x1);
  }

  lemma QueuedIn<T>(es: seq<Entry<T>>, t: T)
    ensures forall x: nat :: Queued(es, t, x) ==> t in Timers(es)
  {
    forall x: nat | Queued(es, t, x) ensures t in Timers(es) {
      var k :| 0 <= k < |es| && es[k] == Entry(t, x);
      assert Timers(es)[k] == t;
    }
  }

  /** A timer fires if and only if it is queued for this tick. */
  lemma Fires<T>(es: seq<Entry<T>>, tick: nat, t: T)
    ensures t in Timers(Due(es, tick)) <==> Queued(es, t, tick)
  {
    var ds := Due(es, tick);
    DueWhere(es, tick, Entry(t, tick));
    if t in Timers(ds) {
      var k :| 0 <= k < |ds| && Timers(ds)[k] == t;
      DueWhere(es, tick, ds[k]);
      assert ds[k] == Entry(t, tick);
    }
    if Queued(es, t, tick) {
      var k :| 0 <= k < |ds| && ds[k] == Entry(t, tick);
      assert Timers(ds)[k] == t;
    }
  }

  /** A timer is queued afterwards for another tick it was queued for, or, if it fired, for the one it asked for. */
  lemma Stays<T>(es: seq<Entry<T>>, tick: nat, rearm: map<T, nat>, t: T)
    ensures forall x: nat :: Queued(Final(es, tick, rearm), t, x) <==>
              (Queued(es, t, x) && x != tick) || (t in Timers(Due(es, tick)) && t in rearm && x == rearm[t])
  {
    forall x: nat
      ensures Queued(Final(es, tick, rearm), t, x) <==>
                (Queued(es, t, x) && x != tick) || (t in Timers(Due(es, tick)) && t in rearm && x == rearm[t])
    {
      DueWhere(es, tick, Entry(t, x));
      RearmedWhere(Due(es, tick), rearm, Entry(t, x));
      assert Queued(Final(es, tick, rearm), t, x) <==> Entry(t, x) in Final(es, tick, rearm);
    }
  }

  lemma IterateNone<T>(es: seq<Entry<T>>, tick: nat, rearm: map<T, nat>)
    ensures Iterate(es, tick, rearm, 0) == es
  {
  }

  /** A firing is the next turn of the iteration, for the next due timer. */
  lemma Turn<T>(es: seq<Entry<T>>, tick: nat, rearm: map<T, nat>, n: nat, k: nat)
    requires !RearmsNow(es, tick, rearm) && n <= |Due(es, tick)|
    requires k < |Iterate(es, tick, rearm, n)| && Quiet(Iterate(es, tick, rearm, n)[..k], tick)
    requires Iterate(es, tick, rearm, n)[k].expires == tick
    ensures n < |Due(es, tick)| && Due(es, tick)[n] == Iterate(es, tick, rearm, n)[k]
    ensures Iterate(es, tick, rearm, n + 1) == Fire(Iterate(es, tick, rearm, n), k, rearm)
  {
    var fs := Iterate(es, tick, rearm, n);
    Progress(es, tick, rearm, n);
    FirstUnique(fs, k, tick);
    assert !AsksNow(fs[k], tick, rearm);
    FireParts(fs, k, tick, rearm);
  }

  lemma Ended<T>(es: seq<Entry<T>>, tick: nat, rearm: map<T, nat>, n: nat)
    requires !RearmsNow(es, tick, rearm) && n <= |Due(es, tick)| && Quiet(Iterate(es, tick, rearm, n), tick)
    ensures n == |Due(es, tick)| && Iterate(es, tick, rearm, n) == Final(es, tick, rearm)
  {
    var fs := Iterate(es, tick, rearm, n);
    Progress(es, tick, rearm, n);
    QuietParts(fs, tick);
    FinalQuiet(fs, tick, rearm);
  }

  lemma QuietAt<T>(es: seq<Entry<T>>, k: nat, tick: nat)
    requires k <= |es| && Quiet(es[..k], tick)
    ensures forall i :: 0 <= i < k ==> es[i].expires != tick
  {
    forall i | 0 <= i < k ensures es[i].expires != tick { assert es[..k][i] == es[i]; }
  }

  lemma FirstUnique<T>(es: seq<Entry<T>>, k: nat, tick: nat)
    requires k < |es| && Quiet(es[..k], tick) && es[k].expires == tick
    ensures FirstDue(es, tick) == k
  {
    QuietAt(es, k, tick);
    QuietAt(es, FirstDue(es, tick), tick);
  }

  /** Following the links from `p` leads through the old list back to `p`. */
  lemma Cycle(p: Timer, was: seq<Timer>, l: seq<Timer>)
    requires p in was && p.next == At(was, 0)
    requires forall i :: 0 <= i < |was| && was[i] != p ==> was[i].next == At(was, i + 1)
    ensures !Linked(p, l)
  {
    if !Linked(p, l) { return; }
    LinkedAt(p, l, 0);
    hide Linked;
    var k :| 0 <= k < |was| && was[k] == p && p !in was[..k] by { FirstIndex(was, p); }
    var j := 0;
    while j < k
      invariant 0 <= j <= k && j + 1 < |l| && l[j + 1] == was[j]
    {
      assert was[j] in was[..k];
      LinkedAt(p, l, j + 1);
      j := j + 1;
    }
  }

  lemma {:induction false} FirstIndex(s: seq<Timer>, p: Timer)
    requires p in s
    ensures exists k :: 0 <= k < |s| && s[k] == p && p !in s[..k]
  {
    if s[0] == p {
      assert p !in s[..0];
    } else {
      FirstIndex(s[1..], p);
      var k :| 0 <= k < |s[1..]| && s[1..][k] == p && p !in s[1..][..k];
      assert s[..k + 1] == [s[0]] + s[1..][..k];
      assert s[k + 1] == p && p !in s[..k + 1];
    }
  }
}
