/** How a block is laid out in the pool's bytes, and what a write elsewhere leaves alone. */
module HeapMemory {
  import opened Bytes
  import opened HeapBlocks

  const MAGIC := 0xABCD1234

  // Offsets of the header's fields.
  const MAGIC_NUM := 0
  const IN_USE := 4
  const BLK_LEN := 8
  const USER_START := 16
  const USER_LEN := 24

  function Flag(b: bool): nat { if b then 1 else 0 }

  /** The field of `n` bytes at offset `off`. */
  function Load(m: seq<Byte>, off: nat, n: nat): nat
    requires off + n <= |m|
  {
    Decode(m[off..off + n])
  }

  /** `m` holds block `b`: its header, its payload, and a tail that points back to the header. */
  ghost predicate Stored(m: seq<Byte>, base: nat, b: Block) {
    && base <= b.addr && b.End() <= base + |m|
    && var o := b.addr - base;
    && Load(m, o + MAGIC_NUM, 4) == MAGIC
    && Load(m, o + IN_USE, 4) == Flag(b.inUse)
    && Load(m, o + BLK_LEN, 8) == b.Len()
    && Load(m, o + USER_START, 8) == b.userStart
    && Load(m, o + USER_LEN, 8) == b.userLen
    && m[o + HEADER..o + HEADER + |b.payload|] == b.payload
    && Load(m, o + b.Len() - TAIL, 8) == b.addr
  }

  ghost predicate AllStored(m: seq<Byte>, base: nat, bs: seq<Block>) {
    forall i :: 0 <= i < |bs| ==> Stored(m, base, bs[i])
  }

  /** `m` and `m'` differ at most in [lo, hi). */
  ghost predicate SameOutside(m: seq<Byte>, m': seq<Byte>, lo: int, hi: int) {
    && |m| == |m'|
    && forall k :: 0 <= k < |m| && !(lo <= k < hi) ==> m[k] == m'[k]
  }

  lemma LoadSame(m: seq<Byte>, m': seq<Byte>, lo: int, hi: int, off: nat, n: nat)
    requires SameOutside(m, m', lo, hi) && off + n <= |m|
    requires off + n <= lo || hi <= off
    ensures Load(m', off, n) == Load(m, off, n)
  {
    assert m'[off..off + n] == m[off..off + n];
  }

  lemma SliceSame(m: seq<Byte>, m': seq<Byte>, lo: int, hi: int, off: nat, n: nat)
    requires SameOutside(m, m', lo, hi) && off + n <= |m|
    requires off + n <= lo || hi <= off
    ensures |m'| == |m| && m'[off..off + n] == m[off..off + n]
  {
  }

  lemma StoredSame(m: seq<Byte>, m': seq<Byte>, base: nat, lo: int, hi: int, b: Block)
    requires SameOutside(m, m', lo, hi) && Stored(m, base, b)
    requires b.End() <= base + lo || base + hi <= b.addr
    ensures Stored(m', base, b)
  {
    hide Load, SameOutside;
    var o := b.addr - base;
    LoadSame(m, m', lo, hi, o + MAGIC_NUM, 4);
    LoadSame(m, m', lo, hi, o + IN_USE, 4);
    LoadSame(m, m', lo, hi, o + BLK_LEN, 8);
    LoadSame(m, m', lo, hi, o + USER_START, 8);
    LoadSame(m, m', lo, hi, o + USER_LEN, 8);
    LoadSame(m, m', lo, hi, o + b.Len() - TAIL, 8);
    SliceSame(m, m', lo, hi, o + HEADER, |b.payload|);
  }

  /**
   * Rewriting the bytes of blocks l..r, and storing blocks `cs` there, replaces exactly those
   * blocks: the one rule behind field stores, splitting and merging.
   */
  lemma ReplaceBlocks(m: seq<Byte>, m': seq<Byte>, base: nat, bs: seq<Block>, l: nat, r: nat, cs: seq<Block>)
    requires AllStored(m, base, bs) && Contiguous(bs) && l <= r < |bs|
    requires base <= bs[l].addr
    requires SameOutside(m, m', bs[l].addr - base, bs[r].End() - base)
    requires AllStored(m', base, cs)
    ensures AllStored(m', base, bs[..l] + cs + bs[r + 1..])
  {
    var rs := bs[..l] + cs + bs[r + 1..];
    var lo, hi := bs[l].addr - base, bs[r].End() - base;
    forall k | 0 <= k < |rs| ensures Stored(m', base, rs[k]) {
      if k < l {
        Ordered(bs, k, l);
        assert Stored(m, base, bs[k]);
        StoredSame(m, m', base, lo, hi, bs[k]);
      } else if k < l + |cs| {
        assert rs[k] == cs[k - l];
      } else {
        var j := k - l - |cs| + r + 1;
        assert rs[k] == bs[j];
        Ordered(bs, r, j);
        assert Stored(m, base, bs[j]);
        StoredSame(m, m', base, lo, hi, bs[j]);
      }
    }
  }

  /** The bytes of a stored block are determined by the block. */
  lemma StoredDetermines(m: seq<Byte>, m': seq<Byte>, base: nat, b: Block, k: nat)
    requires |m| == |m'| && Stored(m, base, b) && Stored(m', base, b)
    requires b.addr - base <= k < b.End() - base
    ensures m[k] == m'[k]
  {
    var o := b.addr - base;
    if k < o + HEADER {
      HeaderDetermines(m, m', base, b, k - o);
    } else if k < o + HEADER + |b.payload| {
      var s, s' := m[o + HEADER..o + HEADER + |b.payload|], m'[o + HEADER..o + HEADER + |b.payload|];
      assert s[k - o - HEADER] == m[k] && s'[k - o - HEADER] == m'[k];
    } else {
      hide Load;
      FieldDetermines(m, m', o + b.Len() - TAIL, 8, k);
    }
  }

  lemma HeaderDetermines(m: seq<Byte>, m': seq<Byte>, base: nat, b: Block, k: nat)
    requires |m| == |m'| && Stored(m, base, b) && Stored(m', base, b) && k < HEADER
    ensures m[b.addr - base + k] == m'[b.addr - base + k]
  {
    hide Load;
    var f, o := FieldOf(k), b.addr - base;
    FieldDetermines(m, m', o + f.0, f.1, o + k);
  }

  /** Offset and width of the header field that contains byte `k`. */
  function FieldOf(k: nat): (f: (nat, nat))
    requires k < HEADER
    ensures f.0 <= k < f.0 + f.1 <= HEADER
  {
    if k < 4 then (MAGIC_NUM, 4) else if k < 8 then (IN_USE, 4) else if k < 16 then (BLK_LEN, 8)
    else if k < 24 then (USER_START, 8) else (USER_LEN, 8)
  }

  lemma FieldDetermines(m: seq<Byte>, m': seq<Byte>, off: nat, n: nat, k: nat)
    requires |m| == |m'| && off + n <= |m| && Load(m, off, n) == Load(m', off, n)
    requires off <= k < off + n
    ensures m[k] == m'[k]
  {
    DecodeInjective(m[off..off + n], m'[off..off + n]);
    assert m[off..off + n][k - off] == m[k] && m'[off..off + n][k - off] == m'[k];
  }

  /** Every address of a tiled pool lies in some block. */
  lemma {:induction false} Covering(bs: seq<Block>, lo: nat, hi: nat, a: nat) returns (i: nat)
    requires Tiles(bs, lo, hi) && lo <= a < hi
    ensures i < |bs| && bs[i].addr <= a < bs[i].End()
    decreases |bs|
  {
    if a < bs[0].End() {
      i := 0;
    } else {
      var ts := bs[1..];
      assert forall k :: 0 <= k < |ts| ==> ts[k] == bs[k + 1];
      assert Contiguous(ts);
      var j := Covering(ts, bs[0].End(), hi, a);
      i := j + 1;
    }
  }

  lemma StoredIn(m: seq<Byte>, base: nat, bs: seq<Block>, b: Block)
    requires AllStored(m, base, bs) && b in bs
    ensures Stored(m, base, b)
  {
  }

  /** Two memories that hold the same blocks agree byte for byte over the pool. */
  lemma ImageDetermined(m: seq<Byte>, m': seq<Byte>, bs: seq<Block>, lo: nat, hi: nat)
    requires |m| == |m'| && Tiles(bs, lo, hi) && lo <= hi <= lo + |m|
    requires AllStored(m, lo, bs) && AllStored(m', lo, bs)
    ensures m[..hi - lo] == m'[..hi - lo]
  {
    hide Stored, Tiles, AllStored;
    forall k | 0 <= k < hi - lo ensures m[k] == m'[k] {
      var i := Covering(bs, lo, hi, lo + k);
      StoredIn(m, lo, bs, bs[i]);
      StoredIn(m', lo, bs, bs[i]);
      StoredDetermines(m, m', lo, bs[i], k);
    }
  }

  /** mem_blk_ok: the eight bytes at offset `off` look like the start of a block in use. */
  predicate HeaderOk(m: seq<Byte>, off: nat)
    requires off + 8 <= |m|
  {
    Load(m, off + MAGIC_NUM, 4) == MAGIC && Load(m, off + IN_USE, 4) == 1
  }

  /** Storing one of the fields in_use, user_start, user_len changes that field of the block only. */
  lemma FieldStored(m: seq<Byte>, m': seq<Byte>, base: nat, b: Block, c: Block, off: nat, n: nat)
    requires Stored(m, base, b)
    requires c.addr == b.addr && c.payload == b.payload
    requires (off, n) == (IN_USE, 4) || (off, n) == (USER_START, 8) || (off, n) == (USER_LEN, 8)
    requires off != IN_USE ==> c.inUse == b.inUse
    requires off != USER_START ==> c.userStart == b.userStart
    requires off != USER_LEN ==> c.userLen == b.userLen
    requires SameOutside(m, m', b.addr - base + off, b.addr - base + off + n)
    requires Load(m', b.addr - base + off, n) == (if off == IN_USE then Flag(c.inUse) else if off == USER_START then c.userStart else c.userLen)
    ensures Stored(m', base, c)
  {
    hide Load, SameOutside;
    var o := b.addr - base;
    LoadSame(m, m', o + off, o + off + n, o + MAGIC_NUM, 4);
    if off != IN_USE { LoadSame(m, m', o + off, o + off + n, o + IN_USE, 4); }
    LoadSame(m, m', o + off, o + off + n, o + BLK_LEN, 8);
    if off != USER_START { LoadSame(m, m', o + off, o + off + n, o + USER_START, 8); }
    if off != USER_LEN { LoadSame(m, m', o + off, o + off + n, o + USER_LEN, 8); }
    LoadSame(m, m', o + off, o + off + n, o + b.Len() - TAIL, 8);
    SliceSame(m, m', o + off, o + off + n, o + HEADER, |b.payload|);
  }

  /** A field store inside block `i` updates block `i` of the list. */
  lemma UpdateBlock(m: seq<Byte>, m': seq<Byte>, base: nat, bs: seq<Block>, i: nat, c: Block, lo: int, hi: int)
    requires AllStored(m, base, bs) && Contiguous(bs) && i < |bs|
    requires bs[i].addr - base <= lo && hi <= bs[i].End() - base
    requires SameOutside(m, m', lo, hi)
    requires Stored(m', base, c)
    ensures AllStored(m', base, bs[i := c])
  {
    var rs := bs[i := c];
    forall k | 0 <= k < |rs| ensures Stored(m', base, rs[k]) {
      if k != i {
        if k < i { Ordered(bs, k, i); } else { Ordered(bs, i, k); }
        assert Stored(m, base, bs[k]);
        StoredSame(m, m', base, lo, hi, bs[k]);
      }
    }
  }

  /** A byte stored inside a payload changes that payload only. */
  lemma PayloadStored(m: seq<Byte>, m': seq<Byte>, base: nat, b: Block, k: nat, v: Byte)
    requires Stored(m, base, b) && k < |b.payload| && |m'| == |m|
    requires m' == m[b.addr - base + HEADER + k := v]
    ensures Stored(m', base, b.(payload := b.payload[k := v]))
  {
    var o := b.addr - base;
    PokedOutside(m, o + HEADER + k, v);
    PayloadSlice(m, o + HEADER, |b.payload|, k, v);
    PayloadReplaced(m, m', base, b, b.payload[k := v], o + HEADER + k, o + HEADER + k + 1);
  }

  /** Writing inside the payload leaves header and tail alone. */
  lemma PayloadReplaced(m: seq<Byte>, m': seq<Byte>, base: nat, b: Block, payload: seq<Byte>, lo: nat, hi: nat)
    requires Stored(m, base, b) && SameOutside(m, m', lo, hi) && |m'| == |m| && |payload| == |b.payload|
    requires b.addr - base + HEADER <= lo <= hi <= b.addr - base + HEADER + |b.payload|
    requires b.End() <= base + |m'| && m'[b.addr - base + HEADER..b.addr - base + HEADER + |b.payload|] == payload
    ensures Stored(m', base, b.(payload := payload))
  {
    hide Load, SameOutside;
    var o := b.addr - base;
    LoadSame(m, m', lo, hi, o + MAGIC_NUM, 4);
    LoadSame(m, m', lo, hi, o + IN_USE, 4);
    LoadSame(m, m', lo, hi, o + BLK_LEN, 8);
    LoadSame(m, m', lo, hi, o + USER_START, 8);
    LoadSame(m, m', lo, hi, o + USER_LEN, 8);
    LoadSame(m, m', lo, hi, o + b.Len() - TAIL, 8);
  }

  lemma PokedOutside(m: seq<Byte>, at: nat, v: Byte)
    requires at < |m|
    ensures SameOutside(m, m[at := v], at, at + 1)
  {
  }

  lemma PayloadSlice(m: seq<Byte>, o: nat, n: nat, k: nat, v: Byte)
    requires o + n <= |m| && k < n
    ensures m[o + k := v][o..o + n] == m[o..o + n][k := v]
  {
  }
}
