/** lib/circular_buffer.c as it runs when no other side is active: a bounded queue of bytes. */
module RingBuffer {
  import opened Arith
  import opened Ring

  /** The `count` bytes from cell `rp` on, wrapping at the end. */
  ghost function Queue(b: seq<Byte>, rp: nat, count: nat): (q: seq<Byte>)
    requires |b| > 0
    ensures |q| == count
    ensures forall k :: 0 <= k < count ==> q[k] == b[Cell(rp + k, |b|)]
  {
    seq(count, k requires 0 <= k < count => b[Cell(rp + k, |b|)])
  }

  /** Storing a byte in the next free cell appends it. */
  lemma QueueAppend(b: seq<Byte>, rp: nat, count: nat, v: Byte)
    requires |b| > 0 && count < |b|
    ensures Queue(b[Cell(rp + count, |b|) := v], rp, count + 1) == Queue(b, rp, count) + [v]
  {
    var n := |b|;
    var c := b[Cell(rp + count, n) := v];
    var q, r := Queue(c, rp, count + 1), Queue(b, rp, count);
    hide Cell, Queue;
    forall k | 0 <= k < count ensures q[k] == r[k] {
      if Cell(rp + k, n) == Cell(rp + count, n) { CellInjective(rp + k, rp + count, n); }
    }
  }

  lemma QueueAt(b: seq<Byte>, rp: nat, count: nat, i: nat)
    requires |b| > 0 && i < count
    ensures Queue(b, rp, count)[i] == b[Cell(rp + i, |b|)]
  {
  }

  /** Moving the read pointer drops the oldest bytes. */
  lemma QueueDrop(b: seq<Byte>, rp: nat, count: nat, r: nat)
    requires |b| > 0 && r <= count
    ensures Queue(b, Cell(rp + r, |b|), count - r) == Queue(b, rp, count)[r..]
  {
    var q, p := Queue(b, Cell(rp + r, |b|), count - r), Queue(b, rp, count)[r..];
    forall k | 0 <= k < count - r ensures q[k] == p[k] {
      SameCell(rp, r, k, |b|);
    }
  }

  lemma SameCell(rp: nat, r: nat, k: nat, n: nat)
    requires n > 0
    ensures Cell(Cell(rp + r, n) + k, n) == Cell(rp + (r + k), n)
  {
    var q := (rp + r) / n;
    var c := Cell(rp + r, n);
    assert rp + r == q * n + c;
    var q2 := (c + k) / n;
    assert c + k == q2 * n + (c + k) % n;
    assert rp + (r + k) == (q + q2) * n + (c + k) % n;
    DivUnique(rp + (r + k), q + q2, (c + k) % n, n);
  }

  class CircularBuffer {
    const buffer: array<Byte>
    var rp: nat
    var wp: nat
    /** The flag of struct concurrent_cbuf. */
    var writeOverflow: bool

    constructor (storage: array<Byte>)
      requires storage.Length > 0
      ensures Valid() && buffer == storage && Contents() == [] && !writeOverflow
    {
      buffer := storage;
      rp, wp := 0, 0;
      writeOverflow := false;
    }

    ghost predicate Valid()
      reads this
    {
      buffer.Length > 0 && rp < buffer.Length && wp < buffer.Length
    }

    ghost function Stored(): (n: nat)
      requires Valid()
      reads this
      ensures n < buffer.Length
    {
      StoredBetween(rp, wp, buffer.Length)
    }

    /** The stored bytes, oldest first. */
    ghost function Contents(): (s: seq<Byte>)
      requires Valid()
      reads this, buffer
      ensures |s| == Stored()
    {
      Queue(buffer[..], rp, Stored())
    }

    /** write_circular_buffer: stores all the bytes, or none. */
    method Write(data: seq<Byte>) returns (r: int)
      requires Valid()
      modifies this`wp, buffer
      ensures Valid()
      ensures r == if |old(Contents())| + |data| <= buffer.Length - 1 then 0 else -1
      ensures Contents() == if r == 0 then old(Contents()) + data else old(Contents())
      ensures r != 0 ==> buffer[..] == old(buffer[..]) && wp == old(wp)
    {
      var n := buffer.Length;
      ghost var was, stored := Contents(), Stored();
      if wp >= rp {
        if n - 1 - (wp - rp) < |data| {
          return -1;
        }
      } else {
        if rp - 1 - wp < |data| {
          return -1;
        }
      }
      var cur := wp;
      WriteAt(rp, wp, n);
      hide Cell, Queue;
      for i := 0 to |data|
        invariant cur == Cell(rp + stored + i, n)
        invariant Queue(buffer[..], rp, stored + i) == was + data[..i]
      {
        CellStep(rp + stored + i, n);
        QueueAppend(buffer[..], rp, stored + i, data[i]);
        ghost var b := buffer[..];
        buffer[cur] := data[i];
        assert buffer[..] == b[cur := data[i]];
        cur := Advance(cur, n);
      }
      wp := cur;
      EndOf(rp, stored + |data|, n);
      assert data[..|data|] == data;
      r := 0;
    }

    /** The write pointer is the read pointer advanced by the stored bytes. */
    static lemma WriteAt(rp: nat, wp: nat, n: nat)
      requires rp < n && wp < n
      ensures wp == Cell(rp + StoredBetween(rp, wp, n), n)
    {
      if wp < rp { DivUnique(rp + StoredBetween(rp, wp, n), 1, wp, n); }
    }

    static lemma EndOf(rp: nat, stored: nat, n: nat)
      requires rp < n && stored < n
      ensures StoredBetween(rp, Cell(rp + stored, n), n) == stored
    {
      assert Cell(rp, n) == rp;
      hide Cell, StoredBetween;
      StoredIsDistance(rp, rp + stored, n);
    }

    /** read_circular_buffer's copy loop: the oldest bytes, and the pointer past them. */
    method CopyOut(count: nat) returns (data: seq<Byte>, cur: nat)
      requires Valid() && count <= Stored()
      ensures data == Contents()[..count]
      ensures cur == Cell(rp + count, buffer.Length)
    {
      var n := buffer.Length;
      ghost var stored := Stored();
      data := [];
      cur := rp;
      assert Cell(rp + 0, n) == rp;
      hide Cell, Queue;
      for i := 0 to count
        invariant cur == Cell(rp + i, n)
        invariant data == Queue(buffer[..], rp, stored)[..i]
      {
        CellStep(rp + i, n);
        QueueAt(buffer[..], rp, stored, i);
        data := data + [buffer[cur]];
        cur := Advance(cur, n);
      }
    }

    /** read_circular_buffer: takes at most `length` of the oldest bytes. */
    method Read(length: nat) returns (r: nat, data: seq<Byte>)
      requires Valid()
      modifies this`rp
      ensures Valid()
      ensures r == if length < |old(Contents())| then length else |old(Contents())|
      ensures data == old(Contents())[..r] && Contents() == old(Contents())[r..]
    {
      hide Cell, Queue;
      ghost var rp0, stored := rp, Stored();
      var storeLen := if wp >= rp then wp - rp else buffer.Length - (rp - wp);
      r := if length < storeLen then length else storeLen;
      WriteAt(rp, wp, buffer.Length);
      var cur;
      data, cur := CopyOut(r);
      rp := cur;
      Remaining(rp0, stored, r, buffer.Length);
      QueueDrop(buffer[..], rp0, stored, r);
    }

    /** After reading `r` bytes, the rest is still there. */
    static lemma Remaining(rp: nat, stored: nat, r: nat, n: nat)
      requires rp < n && r <= stored < n
      ensures StoredBetween(Cell(rp + r, n), Cell(rp + stored, n), n) == stored - r
    {
      StoredIsDistance(rp + r, rp + stored, n);
    }

    /** write_concurrent_cbuf: a refused write is remembered for good. */
    method WriteConcurrent(data: seq<Byte>) returns (r: int)
      requires Valid()
      modifies this`wp, this`writeOverflow, buffer
      ensures Valid()
      ensures r == if |old(Contents())| + |data| <= buffer.Length - 1 then 0 else -1
      ensures Contents() == if r == 0 then old(Contents()) + data else old(Contents())
      ensures writeOverflow == (old(writeOverflow) || r < 0)
    {
      r := Write(data);
      if r < 0 {
        writeOverflow := true;
      }
    }
  }
}
