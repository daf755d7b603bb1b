/** Bitwise operators of C on unsigned words, as functions on naturals. */
module Bits {
  import opened Arith

  /** a | b */
  function Or(a: nat, b: nat): nat {
    if a == 0 && b == 0 then 0 else 2 * Or(a / 2, b / 2) + (if a % 2 == 1 || b % 2 == 1 then 1 else 0)
  }

  /** a & b */
  function And(a: nat, b: nat): nat {
    if a == 0 || b == 0 then 0 else 2 * And(a / 2, b / 2) + (if a % 2 == 1 && b % 2 == 1 then 1 else 0)
  }

  lemma {:induction false} OrZero(a: nat)
    ensures Or(a, 0) == a && Or(0, a) == a
  {
    if a > 0 { OrZero(a / 2); }
  }

  lemma OrNothing()
    ensures Or(0, 0) == 0
  {
  }

  lemma AndNothing()
    ensures And(0, 0) == 0
  {
  }

  lemma Once(h: nat)
    ensures h * Pow2(0) == h
  {
  }

  /** A word whose last bit is set aside. */
  lemma LastBit(h: nat, p: nat, l: nat)
    ensures (h * (2 * p) + l) / 2 == h * p + l / 2 && (h * (2 * p) + l) % 2 == l % 2
  {
    assert h * (2 * p) == 2 * (h * p);
  }

  lemma OrStep(a: nat, b: nat)
    ensures Or(a, b) == 2 * Or(a / 2, b / 2) + (if a % 2 == 1 || b % 2 == 1 then 1 else 0)
  {
  }

  lemma OrDouble(h: nat, l: nat, h': nat, l': nat, p: nat)
    requires Or(h * p + l / 2, h' * p + l' / 2) == Or(h, h') * p + Or(l / 2, l' / 2)
    ensures Or(h * (2 * p) + l, h' * (2 * p) + l') == Or(h, h') * (2 * p) + Or(l, l')
  {
    hide Or;
    LastBit(h, p, l);
    LastBit(h', p, l');
    LastBit(Or(h, h'), p, 0);
    OrStep(h * (2 * p) + l, h' * (2 * p) + l');
    OrStep(l, l');
    assert Or(h, h') * (2 * p) == 2 * (Or(h, h') * p);
  }

  /** High and low parts are or'ed independently. */
  lemma {:induction false} OrSplit(h: nat, l: nat, h': nat, l': nat, k: nat)
    requires l < Pow2(k) && l' < Pow2(k)
    ensures Or(h * Pow2(k) + l, h' * Pow2(k) + l') == Or(h, h') * Pow2(k) + Or(l, l')
  {
    hide Or;
    if k == 0 {
      OrNothing();
      Once(h);
      Once(h');
      Once(Or(h, h'));
    } else {
      OrSplit(h, l / 2, h', l' / 2, k - 1);
      OrDouble(h, l, h', l', Pow2(k - 1));
    }
  }

  lemma {:induction false} AndStep(a: nat, b: nat)
    ensures And(a, b) == 2 * And(a / 2, b / 2) + (if a % 2 == 1 && b % 2 == 1 then 1 else 0)
  {
    if a == 0 || b == 0 { assert And(a / 2, b / 2) == 0; }
  }

  lemma AndDouble(h: nat, l: nat, h': nat, l': nat, p: nat)
    requires And(h * p + l / 2, h' * p + l' / 2) == And(h, h') * p + And(l / 2, l' / 2)
    ensures And(h * (2 * p) + l, h' * (2 * p) + l') == And(h, h') * (2 * p) + And(l, l')
  {
    hide And;
    LastBit(h, p, l);
    LastBit(h', p, l');
    LastBit(And(h, h'), p, 0);
    AndStep(h * (2 * p) + l, h' * (2 * p) + l');
    AndStep(l, l');
    assert And(h, h') * (2 * p) == 2 * (And(h, h') * p);
  }

  /** High and low parts are and'ed independently. */
  lemma {:induction false} AndSplit(h: nat, l: nat, h': nat, l': nat, k: nat)
    requires l < Pow2(k) && l' < Pow2(k)
    ensures And(h * Pow2(k) + l, h' * Pow2(k) + l') == And(h, h') * Pow2(k) + And(l, l')
  {
    hide And;
    if k == 0 {
      AndNothing();
      Once(h);
      Once(h');
      Once(And(h, h'));
    } else {
      AndSplit(h, l / 2, h', l' / 2, k - 1);
      AndDouble(h, l, h', l', Pow2(k - 1));
    }
  }

  /** A mask of k ones keeps the remainder. */
  lemma {:induction false} AndOnes(a: nat, k: nat)
    ensures And(a, Pow2(k) - 1) == a % Pow2(k)
  {
    if k == 0 {
      assert Pow2(k) == 1;
    } else {
      AndOnes(a / 2, k - 1);
      OneMoreOne(a, Pow2(k - 1));
    }
  }

  lemma OneMoreOne(a: nat, p: nat)
    requires p > 0 && And(a / 2, p - 1) == a / 2 % p
    ensures And(a, 2 * p - 1) == a % (2 * p)
  {
    hide And;
    HalfMod(a, p);
    HalfMask(p);
    AndStep(a, 2 * p - 1);
  }

  lemma HalfMask(p: nat)
    requires p > 0
    ensures (2 * p - 1) / 2 == p - 1 && (2 * p - 1) % 2 == 1
  {
  }

  lemma HalfMod(a: nat, p: nat)
    requires p > 0
    ensures a % (2 * p) == 2 * (a / 2 % p) + a % 2
  {
    var q, r := a / 2 / p, a / 2 % p;
    ModSmall(a / 2, p);
    Double(p, q);
    assert q * (2 * p) == 2 * (q * p);
    DivUnique(a, q, 2 * r + a % 2, 2 * p);
  }
}
