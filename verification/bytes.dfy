/** Raw memory: little-endian fields inside a byte sequence. */
module Bytes {
  import opened Arith

  type Byte = x: int | 0 <= x < 256

  function Pow256(n: nat): (p: nat)
    ensures p > 0
  {
    if n == 0 then 1 else 256 * Pow256(n - 1)
  }

  /** The `n` bytes a little-endian CPU stores for the value `v`. */
  function Encode(v: nat, n: nat): (s: seq<Byte>)
    ensures |s| == n
  {
    if n == 0 then [] else [v % 256] + Encode(v / 256, n - 1)
  }

  /** The value a little-endian CPU loads from the bytes `s`. */
  function Decode(s: seq<Byte>): nat {
    if s == [] then 0 else s[0] + 256 * Decode(s[1..])
  }

  lemma {:induction false} DecodeEncode(v: nat, n: nat)
    requires v < Pow256(n)
    ensures Decode(Encode(v, n)) == v
  {
    if n > 0 {
      DecodeEncode(v / 256, n - 1);
      assert Encode(v, n)[1..] == Encode(v / 256, n - 1);
    }
  }

  /** A field's value determines its bytes. */
  lemma {:induction false} DecodeInjective(s: seq<Byte>, t: seq<Byte>)
    requires |s| == |t| && Decode(s) == Decode(t)
    ensures s == t
  {
    if s != [] {
      DecodeInjective(s[1..], t[1..]);
      assert s == [s[0]] + s[1..] && t == [t[0]] + t[1..];
    }
  }

  function Zeros(n: nat): (s: seq<Byte>)
    ensures |s| == n
  {
    seq(n, _ => 0)
  }

  lemma {:induction false} DecodeZeros(s: seq<Byte>)
    requires forall k :: 0 <= k < |s| ==> s[k] == 0
    ensures Decode(s) == 0
  {
    if s != [] {
      DecodeZeros(s[1..]);
    }
  }

  /** The lowest byte of a word and the rest of it, when the word is cut at a higher place. */
  lemma CutByte(x: nat, p: nat)
    requires p > 0
    ensures x % (256 * p) % 256 == x % 256 && x % (256 * p) / 256 == x / 256 % p && x / (256 * p) == x / 256 / p
  {
    var q, r := x / (256 * p), x % (256 * p);
    ModSmall(x, 256 * p);
    assert q * (256 * p) == 256 * (q * p);
    assert x == 256 * (q * p + r / 256) + r % 256;
    assert r / 256 < p;
    DivUnique(x / 256, q, r / 256, p);
  }

  /** Words that agree below byte `n` have the same byte `b` below it. */
  lemma {:induction false} SameByte(x: nat, y: nat, n: nat, b: nat)
    requires b < n && x % Pow256(n) == y % Pow256(n)
    ensures x / Pow256(b) % 256 == y / Pow256(b) % 256
  {
    var p := Pow256(n - 1);
    assert Pow256(n) == 256 * p;
    CutByte(x, p);
    CutByte(y, p);
    if b > 0 {
      SameByte(x / 256, y / 256, n - 1, b - 1);
      CutByte(x, Pow256(b - 1));
      CutByte(y, Pow256(b - 1));
    }
  }

  lemma Pow256Values()
    ensures Pow256(4) == 0x1_0000_0000 && Pow256(8) == 0x1_0000_0000_0000_0000
  {
    assert Pow256(2) == 65536;
    assert Pow256(4) == 256 * (256 * Pow256(2));
    assert Pow256(6) == 256 * (256 * Pow256(4));
    assert Pow256(8) == 256 * (256 * Pow256(6));
  }
}
