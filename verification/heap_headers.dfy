/**
 * What kfree's check accepts (mem_blk_ok in mm/mm.c): of all aligned addresses outside the bytes in users'
 * hands, exactly the headers of blocks in use; inside a user's bytes, whatever the user wrote there.
 */
module HeapHeaders {
  import opened Bytes
  import opened HeapBlocks
  import opened HeapMemory

  lemma {:induction false} DecodeConcat(s: seq<Byte>, t: seq<Byte>)
    ensures Decode(s + t) == Decode(s) + Pow256(|s|) * Decode(t)
  {
    if s == [] {
      assert s + t == t;
    } else {
      DecodeConcat(s[1..], t);
      assert (s + t)[1..] == s[1..] + t;
      Shifted(Pow256(|s| - 1), Decode(t), Decode(s[1..]));
    }
  }

  lemma Shifted(p: nat, d: nat, e: nat)
    ensures 256 * (e + p * d) == 256 * e + (256 * p) * d
  {
  }

  lemma {:induction false} DecodeBound(s: seq<Byte>)
    ensures Decode(s) < Pow256(|s|)
  {
    if s != [] { DecodeBound(s[1..]); }
  }

  /** A word is its two halves. */
  lemma LoadHalves(m: seq<Byte>, off: nat)
    requires off + 8 <= |m|
    ensures Load(m, off, 4) < 0x1_0000_0000
    ensures Load(m, off, 8) == Load(m, off, 4) + 0x1_0000_0000 * Load(m, off + 4, 4)
  {
    var s, t := m[off..off + 4], m[off + 4..off + 8];
    assert m[off..off + 8] == s + t;
    DecodeConcat(s, t);
    DecodeBound(s);
    Pow256Values();
  }

  /** A small word, and one above 2^33, do not look like a header in use. */
  lemma NotAHeader(m: seq<Byte>, off: nat)
    requires off + 8 <= |m|
    requires Load(m, off, 8) < MAGIC || Load(m, off, 8) >= 0x2_0000_0000
    ensures !HeaderOk(m, off)
  {
    hide Load;
    LoadHalves(m, off);
  }

  /** The eight bytes from `a` on lie in nobody's payload. */
  ghost predicate OutsidePayloads(bs: seq<Block>, a: nat) {
    forall i :: 0 <= i < |bs| && bs[i].inUse ==> a + 8 <= bs[i].addr + HEADER || bs[i].addr + HEADER + |bs[i].payload| <= a
  }

  /** The heap lies above 2^33 and is smaller than the magic number, as the kernel's is. */
  predicate HighPool(lo: nat, hi: nat) { 0x2_0000_0000 <= lo <= hi <= lo + 0x2000_0000 }

  /** Inside one stored block, off its user bytes, only the header of a block in use passes the check. */
  lemma BlockHeaders(m: seq<Byte>, lo: nat, hi: nat, b: Block, a: nat)
    requires Good(b) && Stored(m, lo, b) && HighPool(lo, hi) && lo <= b.addr && b.End() <= hi
    requires a % 8 == 0 && b.addr <= a < b.End()
    requires b.inUse ==> a + 8 <= b.addr + HEADER || b.addr + HEADER + |b.payload| <= a
    ensures a + 8 <= b.End()
    ensures HeaderOk(m, a - lo) <==> b.inUse && a == b.addr
  {
    hide Load, Align8;
    var o := b.addr - lo;
    GoodAligned(b);
    assert a - b.addr == 8 * ((a - b.addr) / 8) && b.End() - a == 8 * ((b.End() - a) / 8);
    if a == b.addr + 8 || a == b.addr + 16 || a == b.addr + 24 || a == b.End() - TAIL {
      NotAHeader(m, a - lo);
    } else if a != b.addr {
      InsidePayload(m, o + HEADER, |b.payload|, a - lo);
    }
  }

  lemma InsidePayload(m: seq<Byte>, p: nat, n: nat, o: nat)
    requires p <= o && o + 8 <= p + n <= |m| && m[p..p + n] == Zeros(n)
    ensures !HeaderOk(m, o)
  {
    assert forall k :: o <= k < o + 4 ==> m[k] == m[p..p + n][k - p];
    DecodeZeros(m[o..o + 4]);
  }

  /** kfree's check accepts an aligned address off all user bytes if and only if a block in use starts there. */
  lemma HeaderIffLive(m: seq<Byte>, bs: seq<Block>, lo: nat, hi: nat, a: nat)
    requires WellFormed(bs, lo, hi) && AllStored(m, lo, bs) && HighPool(lo, hi) && hi - lo <= |m|
    requires a % 8 == 0 && lo <= a && a + 8 <= hi && OutsidePayloads(bs, a)
    ensures HeaderOk(m, a - lo) <==> LiveIndex(bs, a + HEADER, 0) < |bs|
  {
    var i := Covering(bs, lo, hi, a);
    BeforeEnd(bs, lo, hi, i);
    BlockHeaders(m, lo, hi, bs[i], a);
    StartsAt(bs, lo, hi, i, a);
    hide HeaderOk, Good, Stored;
    var j := LiveIndex(bs, a + HEADER, 0);
  }

  /** The block that contains `a` is the only one that can have been handed out behind a header at `a`. */
  lemma StartsAt(bs: seq<Block>, lo: nat, hi: nat, i: nat, a: nat)
    requires WellFormed(bs, lo, hi) && i < |bs| && bs[i].addr <= a < bs[i].End()
    ensures LiveIndex(bs, a + HEADER, 0) < |bs| <==> bs[i].inUse && a == bs[i].addr
  {
    var j := LiveIndex(bs, a + HEADER, 0);
    assert Good(bs[i]);
    if j < |bs| {
      assert Good(bs[j]);
      if i < j { Ordered(bs, i, j); } else if j < i { Ordered(bs, j, i); }
    }
  }

  // ---------------------------------------------------------------------------------------
  // Forged headers

  /** The bytes of a header in use: the magic number and one. */
  const FORGERY: seq<Byte> := [0x34, 0x12, 0xCD, 0xAB, 1, 0, 0, 0]

  lemma ForgeryReads(m: seq<Byte>, off: nat)
    requires off + 8 <= |m| && m[off..off + 8] == FORGERY
    ensures HeaderOk(m, off)
  {
    assert m[off..off + 4] == m[off..off + 8][..4] && m[off + 4..off + 8] == m[off..off + 8][4..];
    DecodeFour(m[off..off + 4]);
    DecodeFour(m[off + 4..off + 8]);
  }

  lemma DecodeFour(s: seq<Byte>)
    requires |s| == 4
    ensures Decode(s) == (s[0] as int) + 256 * ((s[1] as int) + 256 * ((s[2] as int) + 256 * (s[3] as int)))
  {
    assert s[1..][1..] == s[2..] && s[2..][1..] == s[3..] && s[3..][1..] == [];
    assert Decode(s[3..]) == s[3] as int;
    assert Decode(s[2..]) == (s[2] as int) + 256 * (s[3] as int);
    assert Decode(s[1..]) == (s[1] as int) + 256 * Decode(s[2..]);
  }

  /**
   * Whoever holds a range of at least eight bytes can make kfree accept a pointer that was never handed
   * out: with the forged bytes at the start of the range, the pointer 32 bytes further passes the check.
   */
  lemma ForgedHeader(m: seq<Byte>, bs: seq<Block>, lo: nat, hi: nat, i: nat)
    requires WellFormed(bs, lo, hi) && AllStored(m, lo, bs) && lo <= hi && hi - lo <= |m|
    requires i < |bs| && bs[i].inUse && |bs[i].payload| >= 8 && bs[i].payload[..8] == FORGERY
    ensures var p := bs[i].userStart;
            p + 8 <= hi && HeaderOk(m, p - lo) && LiveIndex(bs, p + HEADER, 0) == |bs|
  {
    var b := bs[i];
    assert Good(b) && Stored(m, lo, b);
    BeforeEnd(bs, lo, hi, i);
    PayloadHead(m, lo, b);
    StartsAt(bs, lo, hi, i, b.userStart);
    hide Good, Stored, HeaderOk, WellFormed;
    ForgeryReads(m, b.addr - lo + HEADER);
  }

  lemma PayloadHead(m: seq<Byte>, lo: nat, b: Block)
    requires Stored(m, lo, b) && |b.payload| >= 8
    ensures var o := b.addr - lo + HEADER; m[o..o + 8] == b.payload[..8]
  {
    hide Load;
    var o := b.addr - lo + HEADER;
    assert m[o..o + 8] == m[o..o + |b.payload|][..8];
  }
}
