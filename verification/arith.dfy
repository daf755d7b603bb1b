/** Powers of two, and division with remainder. */
module Arith {
  function Pow2(k: nat): (p: nat)
    ensures p > 0
  {
    if k == 0 then 1 else 2 * Pow2(k - 1)
  }

  lemma {:induction false} Pow2Mono(j: nat, k: nat)
    requires j <= k
    ensures Pow2(j) <= Pow2(k)
    decreases k
  {
    if j < k { Pow2Mono(j, k - 1); }
  }

  /** The powers that word and page sizes are made of. */
  lemma Powers()
    ensures Pow2(2) == 4 && Pow2(9) == 512 && Pow2(10) == 0x400 && Pow2(12) == 0x1000
    ensures Pow2(36) == 0x10_0000_0000 && Pow2(48) == 0x1_0000_0000_0000 && Pow2(52) == 0x10_0000_0000_0000
  {
    assert Pow2(0) == 1 && Pow2(1) == 2 * Pow2(0);
    hide Pow2;
    PowIs(1, 1, 2, 2);
    PowIs(2, 2, 4, 4);
    PowIs(4, 4, 16, 16);
    PowIs(8, 1, 256, 2);
    PowIs(8, 2, 256, 4);
    PowIs(8, 4, 256, 16);
    PowIs(12, 12, 0x1000, 0x1000);
    PowIs(24, 12, 0x100_0000, 0x1000);
    PowIs(36, 12, 0x10_0000_0000, 0x1000);
    PowIs(48, 4, 0x1_0000_0000_0000, 16);
  }

  lemma PowIs(j: nat, k: nat, x: nat, y: nat)
    requires Pow2(j) == x && Pow2(k) == y
    ensures Pow2(j + k) == x * y
  {
    Pow2Sum(j, k);
  }

  lemma {:induction false} Pow2Sum(j: nat, k: nat)
    ensures Pow2(j + k) == Pow2(j) * Pow2(k)
  {
    if j > 0 {
      Pow2Sum(j - 1, k);
      Double(Pow2(j - 1), Pow2(k));
    } else {
      assert Pow2(j) == 1;
    }
  }

  lemma Double(x: nat, y: nat)
    ensures (2 * x) * y == 2 * (x * y)
  {
  }

  lemma DivUnique(a: nat, q: nat, r: nat, n: nat)
    requires n > 0 && r < n && a == q * n + r
    ensures a % n == r && a / n == q
  {
    var q', r' := a / n, a % n;
    assert a == q' * n + r';
    Same(q, r, q', r', n);
  }

  lemma Same(q: nat, r: nat, q': nat, r': nat, n: nat)
    requires n > 0 && r < n && r' < n && q * n + r == q' * n + r'
    ensures q == q' && r == r'
  {
    if q > q' { Multiple(q, q', n); } else if q < q' { Multiple(q', q, n); }
  }

  lemma Multiple(p: nat, q: nat, n: nat)
    requires p > q
    ensures p * n >= q * n + n
  {
    var d := p - q;
    assert p * n == q * n + d * n;
    assert d * n == n + (d - 1) * n;
    assert (d - 1) * n >= 0;
  }

  lemma ModSmall(x: nat, p: nat)
    requires p > 0
    ensures x % p <= x && x == x / p * p + x % p
  {
  }
}
