/**
 * Page-table entries of the 4K-granule VMSAv8-64 format (Arm ARM DDI 0487, section D5.3), as
 * mm/page_table.c builds and reads them. Words are numbers below 2^64.
 */
module Descriptor {
  import opened Arith
  import opened Bits

  const PAGE := 0x1000
  const VA_LIMIT := 0x80_0000_0000
  const BIT48 := 0x1_0000_0000_0000

  /** get_pg_entry_index: nine bits of the address from bit 30, 21 or 12 on. */
  function I0(va: nat): (i: nat) ensures i < 512 { (va / 0x4000_0000) % 512 }
  function I1(va: nat): (i: nat) ensures i < 512 { (va / 0x20_0000) % 512 }
  function I2(va: nat): (i: nat) ensures i < 512 { (va / 0x1000) % 512 }

  /** get_phy_addr: bits 12 to 47. */
  function PhyAddr(d: nat): (p: nat)
    ensures p % PAGE == 0 && p < BIT48
  {
    d % BIT48 / PAGE * PAGE
  }

  /** `low | PTE_TYPE_TABLE | PTE_BLOCK_AF` for the twelve low bits: sets bits 0, 1 and 10. */
  function SetTypeAndAf(low: nat): (r: nat)
    requires low < PAGE
    ensures 3 <= r < PAGE
  {
    low - low % 4 + 3 + (if low / 0x400 % 2 == 1 then 0 else 0x400)
  }

  predicate GoodFrame(phys: nat) { phys % PAGE == 0 && phys < BIT48 }

  /** Attributes that leave bits 12 to 47 clear. */
  predicate GoodAttrs(attrs: nat) { attrs < 0x1_0000_0000_0000_0000 && attrs % BIT48 < PAGE }

  /** `phys | attrs | PTE_TYPE_TABLE | PTE_BLOCK_AF`, for a good frame and good attributes. */
  function Entry(phys: nat, attrs: nat): (d: nat)
    requires GoodFrame(phys) && GoodAttrs(attrs)
    ensures d != 0
  {
    attrs - attrs % PAGE + phys + SetTypeAndAf(attrs % PAGE)
  }

  lemma TypeAndAfSet(low: nat)
    requires low < PAGE
    ensures SetTypeAndAf(low) % 4 == 3 && SetTypeAndAf(low) / 0x400 % 2 == 1
  {
  }

  lemma CutHigh(h: nat, e: nat, d: nat)
    requires e < BIT48 && d == h * BIT48 + e
    ensures d % BIT48 == e && d / BIT48 == h
  {
  }

  lemma CutLow(t: nat, low: nat, e: nat)
    requires e == t * PAGE + low && low < PAGE
    ensures e / PAGE == t
  {
  }

  lemma Quarter(q: nat, r: nat, d: nat)
    requires d == q * 0x400 + r && r < 0x400
    ensures d / 0x400 == q
  {
  }

  lemma Even(x: nat, y: nat)
    ensures (2 * x + y) % 2 == y % 2
  {
  }

  lemma Fours(x: nat, y: nat)
    ensures (4 * x + y) % 4 == y % 4
  {
  }

  lemma CutBits(k: nat, low: nat, d: nat)
    requires d == k * PAGE + low && low < PAGE
    ensures d % 4 == low % 4 && d / 0x400 % 2 == low / 0x400 % 2
  {
    var q, r := low / 0x400, low % 0x400;
    assert d == (4 * k + q) * 0x400 + r;
    Quarter(4 * k + q, r, d);
    Even(2 * k, q);
    Fours(0x400 * k, low);
  }

  /** An entry is its high bits, its frame number and its twelve low bits. */
  lemma Cut(h: nat, t: nat, low: nat, d: nat)
    requires d == h * BIT48 + t * PAGE + low && t * PAGE < BIT48 && low < PAGE
    ensures PhyAddr(d) == t * PAGE && d / BIT48 == h
    ensures d % 4 == low % 4 && d / 0x400 % 2 == low / 0x400 % 2
  {
    CutHigh(h, t * PAGE + low, d);
    CutLow(t, low, t * PAGE + low);
    CutBits(h * 0x10_0000_0000 + t, low, d);
  }

  /** The frame stored in an entry is the frame read back, and the table and access bits are set. */
  lemma EntryPhyAddr(phys: nat, attrs: nat)
    requires GoodFrame(phys) && GoodAttrs(attrs)
    ensures PhyAddr(Entry(phys, attrs)) == phys
    ensures Entry(phys, attrs) % 4 == 3 && Entry(phys, attrs) / 0x400 % 2 == 1
    ensures Entry(phys, attrs) / BIT48 == attrs / BIT48
  {
    var low := attrs % PAGE;
    AttrsHigh(attrs);
    TypeAndAfSet(low);
    Cut(attrs / BIT48, phys / PAGE, SetTypeAndAf(low), Entry(phys, attrs));
  }

  lemma AttrsHigh(attrs: nat)
    requires GoodAttrs(attrs)
    ensures attrs - attrs % PAGE == attrs / BIT48 * BIT48
  {
    assert attrs == attrs / BIT48 * BIT48 + attrs % BIT48;
    var k := attrs / BIT48 * 0x10_0000_0000;
    assert attrs == k * PAGE + attrs % BIT48;
  }

  /** What the source stores, `phy_addr | attrs | PTE_TYPE_TABLE | PTE_BLOCK_AF`, is the entry. */
  lemma EntryBits(phys: nat, attrs: nat)
    requires GoodFrame(phys) && GoodAttrs(attrs)
    ensures Or(Or(Or(phys, attrs), 3), 0x400) == Entry(phys, attrs)
  {
    Powers();
    hide Or;
    var h, t, low := attrs / BIT48, phys / PAGE, attrs % PAGE;
    AttrsHigh(attrs);
    var x := h * 0x10_0000_0000 + t;
    FrameOrAttrs(t, h, low);
    assert phys == t * PAGE && attrs == h * 0x10_0000_0000 * PAGE + low;
    LowOr(x, low, 3);
    TypeBits(low);
    LowOr(x, Or(low, 3), 0x400);
  }

  /** A user page, in numbers: valid, accessed, normal memory, not global; bit 6 lets EL0 in, bit 7 forbids stores. */
  lemma UserEntry(phys: nat)
    requires GoodFrame(phys)
    ensures GoodAttrs(0xB50) && Entry(phys, 0xB50) == phys + 0xF53
    ensures GoodAttrs(0xBD0) && Entry(phys, 0xBD0) == phys + 0xFD3
  {
  }

  /** The frame number and the attributes share no bits. */
  lemma FrameOrAttrs(t: nat, h: nat, low: nat)
    requires t < 0x10_0000_0000 && low < PAGE
    ensures Or(t * PAGE, h * 0x10_0000_0000 * PAGE + low) == (h * 0x10_0000_0000 + t) * PAGE + low
  {
    Powers();
    hide Or, Pow2;
    OrSplit(t, 0, h * 0x10_0000_0000, low, 12);
    OrSplit(0, t, h, 0, 36);
    OrZero(h);
    OrZero(t);
    OrZero(low);
  }

  /** A flag among the twelve low bits leaves the others alone. */
  lemma LowOr(x: nat, low: nat, flag: nat)
    requires low < PAGE && flag < PAGE
    ensures Or(x * PAGE + low, flag) == x * PAGE + Or(low, flag)
  {
    Powers();
    hide Or, Pow2;
    OrSplit(x, low, 0, flag, 12);
    OrZero(x);
  }

  lemma TypeBits(low: nat)
    requires low < PAGE
    ensures Or(low, 3) < PAGE && Or(Or(low, 3), 0x400) == SetTypeAndAf(low)
  {
    hide Or;
    OrThree(low);
    OrAf(low - low % 4 + 3);
  }

  lemma OrThree(low: nat)
    ensures Or(low, 3) == low - low % 4 + 3
  {
    Powers();
    FourValues(low % 4);
    hide Or, Pow2;
    OrSplit(low / 4, low % 4, 0, 3, 2);
    OrZero(low / 4);
  }

  lemma OrAf(a: nat)
    requires a < PAGE
    ensures Or(a, 0x400) == a + (if a / 0x400 % 2 == 1 then 0 else 0x400)
  {
    var h, l := a / 0x400, a % 0x400;
    Powers();
    FourBits(h);
    hide Or, Pow2;
    OrSplit(h, l, 1, 0, 10);
    OrZero(l);
  }

  lemma FourValues(r: nat)
    requires r < 4
    ensures Or(r, 3) == 3
  {
    assert Or(0, 0) == 0;
    assert Or(r / 2, 1) == 1;
  }

  lemma FourBits(b: nat)
    requires b < 4
    ensures Or(b, 1) == b + (if b % 2 == 1 then 0 else 1)
  {
    OrZero(b / 2);
  }

  /** What the source reads, `descriptor & ~(PAGE_SIZE - 1) & ((1ULL << 48) - 1)`, is the frame. */
  lemma PhyAddrBits(d: nat)
    requires d < 0x1_0000_0000_0000_0000
    ensures And(And(d, 0x1_0000_0000_0000_0000 - PAGE), BIT48 - 1) == PhyAddr(d)
  {
    Powers();
    hide And, Pow2;
    var x := d / PAGE;
    AndSplit(x, d % PAGE, 0x10_0000_0000_0000 - 1, 0, 12);
    AndOnes(x, 52);
    NoBits(d % PAGE);
    AndOnes(x * PAGE, 48);
    assert x * PAGE == x / 0x10_0000_0000 * BIT48 + x % 0x10_0000_0000 * PAGE;
    DivUnique(x * PAGE, x / 0x10_0000_0000, x % 0x10_0000_0000 * PAGE, BIT48);
    DivUnique(d, x / 0x10_0000_0000, x % 0x10_0000_0000 * PAGE + d % PAGE, BIT48);
    DivUnique(x % 0x10_0000_0000 * PAGE + d % PAGE, x % 0x10_0000_0000, d % PAGE, PAGE);
  }

  lemma NoBits(a: nat)
    ensures And(a, 0) == 0
  {
  }

  /** get_pg_entry_index, `(addr >> layer) & ((1 << 9) - 1)`, for the three layers. */
  lemma IndexBits(va: nat)
    ensures And(va / 0x4000_0000, 511) == I0(va) && And(va / 0x20_0000, 511) == I1(va) && And(va / 0x1000, 511) == I2(va)
  {
    Powers();
    AndOnes(va / 0x4000_0000, 9);
    AndOnes(va / 0x20_0000, 9);
    AndOnes(va / 0x1000, 9);
  }

  /** Within one 39-bit window the three indices determine the page. */
  lemma IndicesInjective(a: nat, b: nat)
    requires a < VA_LIMIT && b < VA_LIMIT
    requires I0(a) == I0(b) && I1(a) == I1(b) && I2(a) == I2(b)
    ensures a / PAGE == b / PAGE
  {
    Recompose(a);
    Recompose(b);
  }

  lemma Recompose(a: nat)
    requires a < VA_LIMIT
    ensures a / PAGE == I0(a) * 0x4_0000 + I1(a) * 0x200 + I2(a)
  {
  }

  lemma SamePageSameIndices(a: nat, b: nat)
    requires a / PAGE == b / PAGE
    ensures I0(a) == I0(b) && I1(a) == I1(b) && I2(a) == I2(b)
  {
    assert a / 0x20_0000 == a / PAGE / 0x200 && b / 0x20_0000 == b / PAGE / 0x200;
    assert a / 0x4000_0000 == a / PAGE / 0x4_0000 && b / 0x4000_0000 == b / PAGE / 0x4_0000;
  }
}
