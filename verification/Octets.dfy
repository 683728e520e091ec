/** Byte strings, big-endian numbers, and pieces of a byte string at a position. */
module Octets {
  type byte = x: int | 0 <= x < 256

  type Bytes = seq<byte>

  function Pow256(k: nat): (p: nat)
    ensures p > 0
  {
    if k == 0 then 1 else 256 * Pow256(k - 1)
  }

  /** The low `k` bytes of a number, most significant first. */
  function BE(n: nat, k: nat): (b: Bytes)
    ensures |b| == k
  {
    if k == 0 then [] else BE(n / 256, k - 1) + [n % 256]
  }

  function FromBE(b: Bytes): (n: nat)
    ensures n < Pow256(|b|)
  {
    if b == [] then 0 else FromBE(b[..|b| - 1]) * 256 + b[|b| - 1]
  }

  lemma {:induction false} ReadBack(n: nat, k: nat)
    requires n < Pow256(k)
    ensures FromBE(BE(n, k)) == n
  {
    if k > 0 {
      ReadBack(n / 256, k - 1);
      assert BE(n, k)[..k - 1] == BE(n / 256, k - 1);
    }
  }

  lemma {:induction false} WriteBack(b: Bytes)
    ensures BE(FromBE(b), |b|) == b
  {
    if b != [] {
      var init, last := b[..|b| - 1], b[|b| - 1];
      WriteBack(init);
      assert FromBE(b) / 256 == FromBE(init) && FromBE(b) % 256 == last;
      assert b == init + [last];
    }
  }

  lemma Widths()
    ensures Pow256(1) == 0x100 && Pow256(2) == 0x1_0000 && Pow256(4) == 0x1_0000_0000
    ensures Pow256(8) == 0x1_0000_0000_0000_0000
  {
    assert Pow256(1) == 0x100 && Pow256(2) == 0x1_0000 && Pow256(3) == 0x100_0000 && Pow256(4) == 0x1_0000_0000;
    assert Pow256(5) == 0x100_0000_0000 && Pow256(6) == 0x1_0000_0000_0000;
    assert Pow256(7) == 0x100_0000_0000_0000;
  }

  /** The string `s` stands in `data` at position `p`. */
  predicate At(data: Bytes, p: nat, s: Bytes) { p + |s| <= |data| && data[p..p + |s|] == s }

  lemma AtConcat(data: Bytes, p: nat, a: Bytes, b: Bytes)
    ensures At(data, p, a + b) <==> At(data, p, a) && At(data, p + |a|, b)
  {
    if p + |a| + |b| <= |data| {
      var whole := data[p..p + |a + b|];
      assert whole == data[p..p + |a|] + data[p + |a|..p + |a| + |b|];
      assert whole[..|a|] == data[p..p + |a|] && whole[|a|..] == data[p + |a|..p + |a| + |b|];
      assert (a + b)[..|a|] == a && (a + b)[|a|..] == b;
    }
  }

  lemma AtIndex(data: Bytes, p: nat, s: Bytes, i: nat)
    requires At(data, p, s) && i < |s|
    ensures data[p + i] == s[i]
  {
    assert data[p..p + |s|][i] == s[i];
  }
}
