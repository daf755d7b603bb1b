/**
 * lib/circular_buffer.c between one writer and one reader that hold different locks: each side
 * takes a snapshot of both pointers, moves bytes one at a time, and publishes its own pointer
 * last. The steps interleave freely, under sequential consistency.
 */
module Ring {
  import opened Arith

  type Byte = x: int | 0 <= x < 256

  // ---------------------------------------------------------------------------------------
  // Pointer arithmetic: byte `k` of the stream lives in cell k % n

  function Cell(k: nat, n: nat): (c: nat)
    requires n > 0
    ensures c < n
  {
    k % n
  }

  /** A pointer after one byte, wrapped at the end of the buffer. */
  function Advance(p: nat, n: nat): nat { if p + 1 == n then 0 else p + 1 }

  lemma CellStep(k: nat, n: nat)
    requires n > 0
    ensures Cell(k + 1, n) == Advance(Cell(k, n), n)
  {
    var q := k / n;
    assert k == q * n + k % n;
    if k % n + 1 == n {
      assert k + 1 == (q + 1) * n;
      DivUnique(k + 1, q + 1, 0, n);
    } else {
      DivUnique(k + 1, q, k % n + 1, n);
    }
  }

  /** Stream positions less than a buffer apart share a cell only if they are equal. */
  lemma CellInjective(a: nat, b: nat, n: nat)
    requires n > 0 && a <= b < a + n && Cell(a, n) == Cell(b, n)
    ensures a == b
  {
    var q, q2 := a / n, b / n;
    assert a == q * n + a % n;
    assert b == q2 * n + b % n;
    if q2 > q { Multiple(q2, q, n); } else if q2 < q { Multiple(q, q2, n); }
  }

  /** The number of stored bytes, as both functions compute it from the two pointers. */
  function StoredBetween(rp: nat, wp: nat, n: nat): int {
    if wp >= rp then wp - rp else n - (rp - wp)
  }

  lemma StoredIsDistance(r: nat, w: nat, n: nat)
    requires n > 0 && r <= w < r + n
    ensures StoredBetween(Cell(r, n), Cell(w, n), n) == w - r
  {
    var q := r / n;
    assert r == q * n + r % n;
    var d := w - r;
    if r % n + d < n {
      DivUnique(w, q, r % n + d, n);
    } else {
      assert w == (q + 1) * n + (r % n + d - n);
      DivUnique(w, q + 1, r % n + d - n, n);
    }
  }

  // ---------------------------------------------------------------------------------------
  // The two sides

  /** A writer between its steps. `seen` is how many bytes had been consumed when it loaded rp. */
  datatype Writer =
    | WIdle
    | WLoaded(data: seq<Byte>, rp: nat, seen: nat)
    | WCopying(todo: seq<Byte>, wp: nat, done: nat, seenAt: nat)

  /** A reader between its steps. `seen` is how many bytes had been published when it loaded wp. */
  datatype Reader =
    | RIdle
    | RLoaded(length: nat, rp: nat)
    | RCopying(total: nat, cursor: nat, out: seq<Byte>, seen: nat)

  /**
   * The shared buffer with both sides, and the history: `accepted` is what completed writes
   * stored, `delivered` what completed reads returned.
   */
  datatype State = State(buf: seq<Byte>, rp: nat, wp: nat, overflow: bool, writer: Writer, reader: Reader,
                         accepted: seq<Byte>, delivered: seq<Byte>)

  function Initial(buf: seq<Byte>): State {
    State(buf, 0, 0, false, WIdle, RIdle, [], [])
  }

  datatype Step =
    | WStart(bytes: seq<Byte>)   // take the write lock, load rp
    | WCheck                     // load wp, test for room
    | WByte                      // copy one byte
    | WPublish                   // store wp, release the lock
    | RStart(count: nat)         // take the read lock, load rp
    | RCheck                     // load wp, compute the number of bytes
    | RByte                      // copy one byte
    | RPublish                   // store rp, release the lock

  /** The test for room of write_circular_buffer. */
  predicate HasRoom(rp: nat, wp: nat, n: nat, len: nat) {
    if wp >= rp then n - 1 - (wp - rp) >= len else rp - 1 - wp >= len
  }

  predicate Enabled(s: State, step: Step) {
    match step
    case WStart(_) => s.writer.WIdle?
    case WCheck => s.writer.WLoaded?
    case WByte => s.writer.WCopying? && s.writer.done < |s.writer.todo| && s.writer.wp < |s.buf|
    case WPublish => s.writer.WCopying? && s.writer.done == |s.writer.todo|
    case RStart(_) => s.reader.RIdle?
    case RCheck => s.reader.RLoaded?
    case RByte => s.reader.RCopying? && |s.reader.out| < s.reader.total && s.reader.cursor < |s.buf|
    case RPublish => s.reader.RCopying? && |s.reader.out| >= s.reader.total
  }

  function Next(s: State, step: Step): State
    requires Enabled(s, step)
  {
    var n := |s.buf|;
    match step
    case WStart(data) => s.(writer := WLoaded(data, s.rp, |s.delivered|))
    case WCheck =>
      var w := s.writer;
      if HasRoom(w.rp, s.wp, n, |w.data|) then s.(writer := WCopying(w.data, s.wp, 0, w.seen))
      else s.(writer := WIdle, overflow := true)
    case WByte =>
      var w := s.writer;
      s.(buf := s.buf[w.wp := w.todo[w.done]], writer := w.(wp := Advance(w.wp, n), done := w.done + 1))
    case WPublish =>
      s.(wp := s.writer.wp, writer := WIdle, accepted := s.accepted + s.writer.todo)
    case RStart(length) => s.(reader := RLoaded(length, s.rp))
    case RCheck =>
      var r := s.reader;
      var stored := StoredBetween(r.rp, s.wp, n);
      var total := if r.length < stored then r.length else if stored >= 0 then stored else 0;
      s.(reader := RCopying(total, r.rp, [], |s.accepted|))
    case RByte =>
      var r := s.reader;
      s.(reader := r.(cursor := Advance(r.cursor, n), out := r.out + [s.buf[r.cursor]]))
    case RPublish =>
      s.(rp := s.reader.cursor, reader := RIdle, delivered := s.delivered + s.reader.out)
  }

  // ---------------------------------------------------------------------------------------
  // The invariant

  /** Published bytes not yet consumed are in their cells. */
  ghost predicate Holds(buf: seq<Byte>, accepted: seq<Byte>, from: nat)
    requires |buf| > 0
  {
    forall k :: from <= k < |accepted| ==> buf[Cell(k, |buf|)] == accepted[k]
  }

  ghost predicate WriterOk(s: State)
    requires |s.buf| > 0
  {
    var n, w, r := |s.buf|, |s.accepted|, |s.delivered|;
    match s.writer
    case WIdle => true
    case WLoaded(data, rp, seen) => seen <= r && w - seen < n && rp == Cell(seen, n)
    case WCopying(todo, wp, done, seen) =>
      && seen <= r && done <= |todo| && w + |todo| - seen < n
      && wp == Cell(w + done, n)
      && forall j :: 0 <= j < done ==> s.buf[Cell(w + j, n)] == todo[j]
  }

  ghost predicate ReaderOk(s: State)
    requires |s.buf| > 0
  {
    var n, w, r := |s.buf|, |s.accepted|, |s.delivered|;
    match s.reader
    case RIdle => true
    case RLoaded(_, rp) => rp == Cell(r, n)
    case RCopying(total, cursor, out, seen) =>
      && seen <= w && |out| <= total && r + total <= seen
      && cursor == Cell(r + |out|, n)
      && out == s.accepted[r..r + |out|]
  }

  ghost predicate Inv(s: State) {
    var n, w, r := |s.buf|, |s.accepted|, |s.delivered|;
    && n > 0
    && r <= w < r + n
    && s.wp == Cell(w, n) && s.rp == Cell(r, n)
    && s.delivered == s.accepted[..r]
    && Holds(s.buf, s.accepted, r)
    && WriterOk(s) && ReaderOk(s)
  }

  lemma InitialInv(buf: seq<Byte>)
    requires |buf| > 0
    ensures Inv(Initial(buf))
  {
  }

  /** The writer tests for exactly the room there was when it loaded rp. */
  lemma RoomIsFree(r: nat, w: nat, n: nat, len: nat)
    requires n > 0 && r <= w < r + n
    ensures HasRoom(Cell(r, n), Cell(w, n), n, len) <==> w + len - r < n
  {
    StoredIsDistance(r, w, n);
  }

  /** Where the writer may still write, nobody will read before it publishes. */
  lemma WriteMissesUnread(s: State, k: nat)
    requires Inv(s) && s.writer.WCopying? && s.writer.done < |s.writer.todo|
    requires |s.delivered| <= k < |s.accepted| + s.writer.done
    ensures s.writer.wp != Cell(k, |s.buf|)
  {
    var p := |s.accepted| + s.writer.done;
    if s.writer.wp == Cell(k, |s.buf|) {
      CellInjective(k, p, |s.buf|);
    }
  }

  lemma WByteKeeps(s: State)
    requires Inv(s) && Enabled(s, WByte)
    ensures Inv(Next(s, WByte))
  {
    hide Cell, Advance;
    var t := Next(s, WByte);
    var n, w, r := |s.buf|, |s.accepted|, |s.delivered|;
    CellStep(w + s.writer.done, n);
    forall k | r <= k < w ensures t.buf[Cell(k, n)] == s.accepted[k] {
      WriteMissesUnread(s, k);
    }
    forall j | 0 <= j < s.writer.done + 1 ensures t.buf[Cell(w + j, n)] == s.writer.todo[j] {
      if j < s.writer.done { WriteMissesUnread(s, w + j); }
    }
  }

  /** Bytes that lie in the next cells may be appended. */
  lemma HoldsMore(buf: seq<Byte>, accepted: seq<Byte>, more: seq<Byte>, from: nat)
    requires |buf| > 0 && Holds(buf, accepted, from)
    requires forall j :: 0 <= j < |more| ==> buf[Cell(|accepted| + j, |buf|)] == more[j]
    ensures Holds(buf, accepted + more, from)
  {
    hide Cell;
    var all := accepted + more;
    forall k | from <= k < |all| ensures buf[Cell(k, |buf|)] == all[k] {
      if k >= |accepted| {
        var j := k - |accepted|;
        assert buf[Cell(|accepted| + j, |buf|)] == more[j];
      }
    }
  }

  lemma PrefixKept(accepted: seq<Byte>, more: seq<Byte>, r: nat, k: nat)
    requires r <= k <= |accepted|
    ensures (accepted + more)[..r] == accepted[..r] && (accepted + more)[r..k] == accepted[r..k]
  {
  }

  lemma WPublishKeeps(s: State)
    requires Inv(s) && Enabled(s, WPublish)
    ensures Inv(Next(s, WPublish))
  {
    var r := |s.delivered|;
    HoldsMore(s.buf, s.accepted, s.writer.todo, r);
    PrefixKept(s.accepted, s.writer.todo, r, if s.reader.RCopying? then r + |s.reader.out| else r);
    hide Cell, Holds;
  }

  lemma RByteKeeps(s: State)
    requires Inv(s) && Enabled(s, RByte)
    ensures Inv(Next(s, RByte))
  {
    hide Cell, Advance;
    var r, i := |s.delivered|, |s.reader.out|;
    CellStep(r + i, |s.buf|);
    assert s.buf[Cell(r + i, |s.buf|)] == s.accepted[r + i];
    assert s.accepted[r..r + i + 1] == s.accepted[r..r + i] + [s.accepted[r + i]];
  }

  lemma RPublishKeeps(s: State)
    requires Inv(s) && Enabled(s, RPublish)
    ensures Inv(Next(s, RPublish))
  {
    hide Cell;
    var t := Next(s, RPublish);
    var r, i := |s.delivered|, |s.reader.out|;
    assert s.accepted[..r + i] == s.accepted[..r] + s.accepted[r..r + i];
  }

  lemma CheckKeeps(s: State, step: Step)
    requires Inv(s) && Enabled(s, step) && (step == WCheck || step == RCheck)
    ensures Inv(Next(s, step))
  {
    hide Cell;
    var n, w, r := |s.buf|, |s.accepted|, |s.delivered|;
    if step == WCheck {
      RoomIsFree(s.writer.seen, w, n, |s.writer.data|);
    } else {
      StoredIsDistance(r, w, n);
    }
  }

  /** Every step of either side keeps the invariant, however the other side is placed. */
  lemma StepKeeps(s: State, step: Step)
    requires Inv(s) && Enabled(s, step)
    ensures Inv(Next(s, step))
  {
    hide Cell;
    match step
    case WStart(_) =>
    case WCheck => CheckKeeps(s, step);
    case WByte => WByteKeeps(s);
    case WPublish => WPublishKeeps(s);
    case RStart(_) =>
    case RCheck => CheckKeeps(s, step);
    case RByte => RByteKeeps(s);
    case RPublish => RPublishKeeps(s);
  }

  // ---------------------------------------------------------------------------------------
  // Whole runs

  /** Any interleaving of steps; a step that is not possible where it stands is skipped. */
  function Run(s: State, steps: seq<Step>): State
    decreases |steps|
  {
    if steps == [] then s else Run(if Enabled(s, steps[0]) then Next(s, steps[0]) else s, steps[1..])
  }

  lemma {:induction false} RunKeeps(s: State, steps: seq<Step>)
    requires Inv(s)
    ensures Inv(Run(s, steps))
    decreases |steps|
  {
    if steps != [] {
      if Enabled(s, steps[0]) {
        StepKeeps(s, steps[0]);
        RunKeeps(Next(s, steps[0]), steps[1..]);
      } else {
        RunKeeps(s, steps[1..]);
      }
    }
  }

  /** Cells a copying writer has yet to write. */
  ghost predicate WillWrite(s: State, c: nat)
    requires |s.buf| > 0
  {
    s.writer.WCopying? && exists k: nat :: |s.accepted| + s.writer.done <= k < |s.accepted| + |s.writer.todo| && Cell(k, |s.buf|) == c
  }

  /** Cells a copying reader has yet to read. */
  ghost predicate WillRead(s: State, c: nat)
    requires |s.buf| > 0
  {
    s.reader.RCopying? && exists k: nat :: |s.delivered| + |s.reader.out| <= k < |s.delivered| + s.reader.total && Cell(k, |s.buf|) == c
  }

  /**
   * In every state of every run: the bytes delivered are a prefix of the bytes accepted, at most
   * n - 1 bytes are stored, the two pointers enclose them, memory holds them in their cells, and no cell
   * is both still to be written and still to be read.
   */
  lemma RunSafe(buf: seq<Byte>, steps: seq<Step>)
    requires |buf| > 0
    ensures var s := Run(Initial(buf), steps);
            && |s.buf| > 0
            && s.delivered <= s.accepted
            && |s.accepted| - |s.delivered| <= |s.buf| - 1
            && s.rp == Cell(|s.delivered|, |s.buf|) && s.wp == Cell(|s.accepted|, |s.buf|)
            && Holds(s.buf, s.accepted, |s.delivered|)
            && forall c: nat :: !(WillWrite(s, c) && WillRead(s, c))
  {
    InitialInv(buf);
    RunKeeps(Initial(buf), steps);
    NoOverlap(Run(Initial(buf), steps));
  }

  lemma NoOverlap(s: State)
    requires Inv(s)
    ensures forall c: nat :: !(WillWrite(s, c) && WillRead(s, c))
  {
    hide Cell;
    forall c: nat ensures !(WillWrite(s, c) && WillRead(s, c)) {
      if WillWrite(s, c) && WillRead(s, c) {
        var j: nat :| |s.accepted| + s.writer.done <= j < |s.accepted| + |s.writer.todo| && Cell(j, |s.buf|) == c;
        var i: nat :| |s.delivered| + |s.reader.out| <= i < |s.delivered| + s.reader.total && Cell(i, |s.buf|) == c;
        CellInjective(i, j, |s.buf|);
        assert false;
      }
    }
  }

  /** The data of every write that returned 0 in a run, in order. */
  function Accepted(s: State, steps: seq<Step>): seq<seq<Byte>>
    decreases |steps|
  {
    if steps == [] then []
    else if Enabled(s, steps[0]) then
      (if steps[0].WPublish? then [s.writer.todo] else []) + Accepted(Next(s, steps[0]), steps[1..])
    else Accepted(s, steps[1..])
  }

  function Concat(xs: seq<seq<Byte>>): seq<Byte> {
    if xs == [] then [] else xs[0] + Concat(xs[1..])
  }

  lemma {:induction false} ConcatCons(x: seq<Byte>, xs: seq<seq<Byte>>)
    ensures Concat([x] + xs) == x + Concat(xs)
  {
    assert ([x] + xs)[1..] == xs;
  }

  /** The history of accepted bytes is that of the published writes. */
  lemma {:induction false} AcceptedStream(s: State, steps: seq<Step>)
    ensures Run(s, steps).accepted == s.accepted + Concat(Accepted(s, steps))
    decreases |steps|
  {
    if steps == [] {
      assert s.accepted + [] == s.accepted;
    } else if Enabled(s, steps[0]) {
      var t := Next(s, steps[0]);
      AcceptedStream(t, steps[1..]);
      if steps[0].WPublish? {
        ConcatCons(s.writer.todo, Accepted(t, steps[1..]));
        assert s.accepted + (s.writer.todo + Concat(Accepted(t, steps[1..]))) == (s.accepted + s.writer.todo) + Concat(Accepted(t, steps[1..]));
      } else {
        assert t.accepted == s.accepted;
        assert [] + Accepted(t, steps[1..]) == Accepted(t, steps[1..]);
      }
    } else {
      AcceptedStream(s, steps[1..]);
    }
  }

  /**
   * All or nothing: what the reader got is a prefix of the concatenation of whole writes, and memory holds
   * the rest of it, up to the write pointer, in the cells the reader will visit next.
   */
  lemma WholeWrites(buf: seq<Byte>, steps: seq<Step>)
    requires |buf| > 0
    ensures var s, stream := Run(Initial(buf), steps), Concat(Accepted(Initial(buf), steps));
            && |s.buf| > 0 && s.delivered <= stream && |stream| - |s.delivered| < |s.buf|
            && s.rp == Cell(|s.delivered|, |s.buf|) && s.wp == Cell(|stream|, |s.buf|)
            && forall k :: |s.delivered| <= k < |stream| ==> s.buf[Cell(k, |s.buf|)] == stream[k]
  {
    RunSafe(buf, steps);
    AcceptedStream(Initial(buf), steps);
    hide Run, Cell, Accepted, Concat;
    var s := Run(Initial(buf), steps);
    assert [] + Concat(Accepted(Initial(buf), steps)) == Concat(Accepted(Initial(buf), steps));
  }

  /** A write is refused exactly when, at the moment it loaded rp, the free space was too small. */
  lemma RefusedIffNoRoom(s: State)
    requires Inv(s) && s.writer.WLoaded?
    ensures Next(s, WCheck).writer.WIdle? <==> |s.buf| - 1 - (|s.accepted| - s.writer.seen) < |s.writer.data|
    ensures Next(s, WCheck).writer.WIdle? ==> Next(s, WCheck).buf == s.buf && Next(s, WCheck).overflow
  {
    RoomIsFree(s.writer.seen, |s.accepted|, |s.buf|, |s.writer.data|);
  }

  // ---------------------------------------------------------------------------------------
  // One whole operation, whatever the other side does meanwhile

  lemma RunEnabled(s: State, steps: seq<Step>)
    requires steps != []
    ensures Run(s, steps) == Run(if Enabled(s, steps[0]) then Next(s, steps[0]) else s, steps[1..])
  {
  }

  /** The reader takes as many bytes as it asked for, or all there are when it looks at the write pointer. */
  lemma ReadTakes(s: State)
    requires Inv(s) && s.reader.RLoaded?
    ensures var t, stored := Next(s, RCheck), |s.accepted| - |s.delivered|;
            && t.reader.RCopying? && t.reader.out == []
            && t.reader.total == (if s.reader.length < stored then s.reader.length else stored)
            && t == s.(reader := t.reader)
  {
    StoredIsDistance(|s.delivered|, |s.accepted|, |s.buf|);
  }

  /** While the reader waits to look, or copies, the writer can only add to the stream. */
  lemma {:induction false} ReaderWaits(s: State, steps: seq<Step>)
    requires Inv(s) && !s.reader.RIdle? && RPublish !in steps && (s.reader.RLoaded? ==> RCheck !in steps)
    ensures var t := Run(s, steps);
            && Inv(t) && s.accepted <= t.accepted && t.delivered == s.delivered
            && (s.reader.RLoaded? ==> t.reader == s.reader)
            && (s.reader.RCopying? ==> t.reader.RCopying? && t.reader.total == s.reader.total)
    decreases |steps|
  {
    hide Inv;
    if steps != [] {
      RunEnabled(s, steps);
      assert steps[0] in steps;
      if Enabled(s, steps[0]) {
        StepKeeps(s, steps[0]);
        ReaderWaits(Next(s, steps[0]), steps[1..]);
      } else {
        ReaderWaits(s, steps[1..]);
      }
    }
  }

  /**
   * A read of `count` bytes, with any steps `a` of the writer before the reader looks at the write pointer and any
   * steps `b` while it copies: it delivers the next min(count, stored) bytes of the stream, no more and no fewer.
   */
  lemma ReadDelivers(s: State, count: nat, a: seq<Step>, b: seq<Step>)
    requires Inv(s) && s.reader.RIdle? && RCheck !in a && RPublish !in a && RPublish !in b
    ensures var u := Run(Next(s, RStart(count)), a);
            && Inv(u) && u.reader.RLoaded? && u.delivered == s.delivered
            && var v := Run(Next(u, RCheck), b);
               Enabled(v, RPublish) ==>
                 var n := if count < |u.accepted| - |s.delivered| then count else |u.accepted| - |s.delivered|;
                 && |s.delivered| + n <= |u.accepted|
                 && Next(v, RPublish).delivered == u.accepted[..|s.delivered| + n]
                 && v.reader.out == u.accepted[|s.delivered|..|s.delivered| + n]
  {
    var s1 := Next(s, RStart(count));
    StepKeeps(s, RStart(count));
    ReaderWaits(s1, a);
    var u := Run(s1, a);
    hide Run;
    ReadTakes(u);
    CheckKeeps(u, RCheck);
    var t := Next(u, RCheck);
    ReaderWaits(t, b);
    Counts(u);
    hide Inv, Cell;
    if Enabled(Run(t, b), RPublish) { ReadEnds(Run(t, b), u.accepted); }
  }

  lemma Counts(s: State)
    requires Inv(s)
    ensures |s.delivered| <= |s.accepted|
  {
  }

  /** A read that is published delivers its number of bytes of the stream `xs` it saw. */
  lemma ReadEnds(v: State, xs: seq<Byte>)
    requires Inv(v) && v.reader.RCopying? && Enabled(v, RPublish) && xs <= v.accepted && |v.delivered| + v.reader.total <= |xs|
    ensures var r, n := |v.delivered|, v.reader.total; Next(v, RPublish).delivered == xs[..r + n] && v.reader.out == xs[r..r + n]
  {
    hide Cell, Holds;
    var r, n := |v.delivered|, v.reader.total;
    assert v.reader.out == v.accepted[r..r + n] && v.delivered == v.accepted[..r];
    SamePrefix(xs, v.accepted, r, n);
  }

  lemma SamePrefix(xs: seq<Byte>, ys: seq<Byte>, r: nat, n: nat)
    requires xs <= ys && r + n <= |xs|
    ensures ys[r..r + n] == xs[r..r + n] && ys[..r] + ys[r..r + n] == xs[..r + n]
  {
  }

  /** While the writer waits to look, or copies, the reader adds nothing to the stream. */
  lemma {:induction false} WriterWaits(s: State, steps: seq<Step>)
    requires Inv(s) && !s.writer.WIdle? && WPublish !in steps && (s.writer.WLoaded? ==> WCheck !in steps)
    ensures var t := Run(s, steps);
            && Inv(t) && t.accepted == s.accepted && t.overflow == s.overflow
            && (s.writer.WLoaded? ==> t.writer == s.writer)
            && (s.writer.WCopying? ==> t.writer.WCopying? && t.writer.todo == s.writer.todo)
    decreases |steps|
  {
    hide Inv;
    if steps != [] {
      RunEnabled(s, steps);
      assert steps[0] in steps;
      if Enabled(s, steps[0]) {
        StepKeeps(s, steps[0]);
        WriterWaits(Next(s, steps[0]), steps[1..]);
      } else {
        WriterWaits(s, steps[1..]);
      }
    }
  }

  /**
   * A write of `data`, with any steps `a` of the reader before the writer looks at the write pointer and any
   * steps `b` while it copies: if the room left by what had been read when it began is too small it is refused,
   * the overflow flag is set and the stream is unchanged; otherwise all of `data` is appended.
   */
  lemma WriteStores(s: State, data: seq<Byte>, a: seq<Step>, b: seq<Step>)
    requires Inv(s) && s.writer.WIdle? && WCheck !in a && WPublish !in a && WPublish !in b
    ensures var u := Run(Next(s, WStart(data)), a);
            && Inv(u) && u.writer.WLoaded? && u.accepted == s.accepted
            && var t := Next(u, WCheck);
               if |s.buf| - 1 - (|s.accepted| - |s.delivered|) < |data| then
                 t == u.(writer := WIdle, overflow := true)
               else
                 && t.writer.WCopying? && t.overflow == u.overflow
                 && (Enabled(Run(t, b), WPublish) ==> Next(Run(t, b), WPublish).accepted == s.accepted + data)
  {
    var s1 := Next(s, WStart(data));
    StepKeeps(s, WStart(data));
    WriterWaits(s1, a);
    var u := Run(s1, a);
    SameLength(s1, a);
    hide Run;
    RoomIsFree(|s.delivered|, |u.accepted|, |u.buf|, |data|);
    CheckKeeps(u, WCheck);
    var t := Next(u, WCheck);
    if t.writer.WCopying? { WriterWaits(t, b); }
  }

  lemma {:induction false} SameLength(s: State, steps: seq<Step>)
    ensures |Run(s, steps).buf| == |s.buf|
    decreases |steps|
  {
    if steps != [] {
      SameLength(if Enabled(s, steps[0]) then Next(s, steps[0]) else s, steps[1..]);
    }
  }

  /** Neither side is ever stuck inside an operation, whatever the other one does. */
  lemma NeverStuck(s: State)
    requires Inv(s)
    ensures !s.writer.WIdle? ==> Enabled(s, WCheck) || Enabled(s, WByte) || Enabled(s, WPublish)
    ensures !s.reader.RIdle? ==> Enabled(s, RCheck) || Enabled(s, RByte) || Enabled(s, RPublish)
  {
  }
}
