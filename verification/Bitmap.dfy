/**
 The growable bit vector of bitmap.c. Words and bytes are bit lists, least
 significant bit first; the bitmap stands for the set of its one bits.
 */
module Bitmap {
  import opened Bits

  const BITMAP_MAX: nat := 0x100_0000
  const ZERO: word := seq(32, _ => false)

  /** Bit `n` of a big-endian byte string. */
  predicate StringBit(s: seq<byte>, n: nat) {
    n / 8 < |s| && s[|s| - 1 - n / 8][n % 8]
  }

  /** Bit `n` of a word vector. */
  predicate BitOf(d: seq<word>, n: nat) { n / 32 < |d| && d[n / 32][n % 32] }

  /** Byte `k` of a word vector, counted from the least significant. */
  function ByteOf(d: seq<word>, k: nat): byte
    requires k / 4 < |d|
  {
    d[k / 4][8 * (k % 4)..8 * (k % 4) + 8]
  }

  /** Leading zero bytes removed. */
  function Strip(s: seq<byte>): seq<byte> {
    if s != [] && forall b :: 0 <= b < 8 ==> !s[0][b] then Strip(s[1..]) else s
  }

  /** A word with a byte or-ed in at a shift. */
  function OrByte(w: word, b: byte, shift: nat): word {
    seq(32, i requires 0 <= i < 32 => w[i] || (shift <= i < shift + 8 && b[i - shift]))
  }

  lemma Split(n: nat)
    ensures n / 8 / 4 == n / 32 && 8 * (n / 8 % 4) + n % 8 == n % 32
  {
  }

  lemma {:induction false} StripKeepsBits(s: seq<byte>, n: nat)
    ensures StringBit(Strip(s), n) == StringBit(s, n)
    ensures Strip(s) != [] ==> exists b :: 0 <= b < 8 && Strip(s)[0][b]
  {
    if s != [] && forall b :: 0 <= b < 8 ==> !s[0][b] {
      StripKeepsBits(s[1..], n);
    }
  }

  /** A string without leading zero bytes is determined by its bits. */
  lemma BitsDetermine(s: seq<byte>, t: seq<byte>)
    requires forall n: nat :: StringBit(s, n) == StringBit(t, n)
    requires s != [] ==> exists b :: 0 <= b < 8 && s[0][b]
    requires t != [] ==> exists b :: 0 <= b < 8 && t[0][b]
    ensures s == t
  {
    NotLonger(s, t);
    NotLonger(t, s);
    forall i | 0 <= i < |s| ensures s[i] == t[i] {
      forall b | 0 <= b < 8 ensures s[i][b] == t[i][b] {
        var n := 8 * (|s| - 1 - i) + b;
        assert n / 8 == |s| - 1 - i && n % 8 == b;
        assert StringBit(s, n) == StringBit(t, n);
      }
    }
  }

  lemma NotLonger(s: seq<byte>, t: seq<byte>)
    requires forall n: nat :: StringBit(s, n) == StringBit(t, n)
    requires s != [] ==> exists b :: 0 <= b < 8 && s[0][b]
    ensures |s| <= |t|
  {
    if s != [] {
      var b :| 0 <= b < 8 && s[0][b];
      var n := 8 * (|s| - 1) + b;
      assert n / 8 == |s| - 1 && n % 8 == b;
      assert StringBit(s, n) == StringBit(t, n);
    }
  }

  function Shifted(w: word, k: nat): word {
    seq(32, j requires 0 <= j < 32 => j >= k && w[j - k])
  }

  lemma ShiftStep(w: word, k: nat)
    ensures [false] + Shifted(w, k)[..31] == Shifted(w, k + 1)
  {
  }

  /** The loop of bitmap_nbits: how often a word is shifted left until its top bit is one. */
  method MsbShift(word: word) returns (k: nat)
    requires word != ZERO
    ensures k < 32 && word[31 - k] && forall j :: 31 - k < j < 32 ==> !word[j]
  {
    ghost var i :| 0 <= i < 32 && word[i];
    var w := word;
    k := 0;
    while !w[31]
      invariant i + k < 32 && w == Shifted(word, k)
      invariant forall j :: 31 - k < j < 32 ==> !word[j]
      decreases 32 - k
    {
      assert w[31] == word[31 - k];
      ShiftStep(word, k);
      w := [false] + w[..31];
      k := k + 1;
    }
    assert w[31] == word[31 - k];
  }

  class Bitmap {
    var d: seq<word>
    var top: nat

    /** Bit `n` is one. */
    predicate Has(n: nat)
      reads this
    {
      BitOf(d, n)
    }

    /** `top` is in range and no word above it has a one bit. */
    predicate Valid()
      reads this
    {
      top < |d| && forall i :: top < i < |d| ==> d[i] == ZERO
    }

    /** bitmap_new. */
    constructor ()
      ensures Valid() && forall n: nat :: !Has(n)
    {
      d, top := [ZERO], 0;
    }

    /** bitmap_zero. */
    method Clear()
      requires Valid()
      modifies this
      ensures Valid() && |d| == |old(d)| && top == 0 && forall n: nat :: !Has(n)
    {
      d := seq(|d|, _ => ZERO);
      top := 0;
    }

    /** bitmap_test_bit. */
    method TestBit(n: nat) returns (r: bool)
      requires Valid()
      ensures r == Has(n)
    {
      if top >= |d| || n / 32 > top {
        return false;
      }
      r := d[n / 32][n % 32];
    }

    /** reserve. */
    method Reserve(n: nat) returns (ok: bool)
      requires Valid()
      modifies this`d
      ensures Valid() && ok == (n <= BITMAP_MAX) && (ok ==> n / 32 < |d|)
      ensures |old(d)| <= |d| && d[..|old(d)|] == old(d) && forall i :: |old(d)| <= i < |d| ==> d[i] == ZERO
    {
      if top >= |d| || n > BITMAP_MAX {
        return false;
      }
      var nlen := n / 32 + 1;
      if |d| < nlen {
        d := d + seq(nlen - |d|, _ => ZERO);
      }
      return true;
    }

    /** bitmap_set_bit: adds the bit to the set, unless it is out of range. */
    method SetBit(n: nat) returns (ok: bool)
      requires Valid()
      modifies this
      ensures Valid() && ok == (n <= BITMAP_MAX)
      ensures forall m: nat :: Has(m) == (old(Has(m)) || (ok && m == n))
    {
      ok := Reserve(n);
      if !ok {
        return;
      }
      var offset := n / 32;
      if offset > top {
        top := offset;
      }
      d := d[offset := d[offset][n % 32 := true]];
    }

    /** retop: the top word is not zero, unless it is the only one. */
    method Retop()
      requires Valid()
      modifies this`top
      ensures Valid() && (top > 0 ==> d[top] != ZERO)
    {
      while top > 0 && d[top] == ZERO
        invariant Valid()
        decreases top
      {
        top := top - 1;
      }
    }

    /** bitmap_clear_bit: removes the bit from the set. */
    method ClearBit(n: nat)
      requires Valid()
      modifies this
      ensures Valid() && forall m: nat :: Has(m) == (old(Has(m)) && !(m == n && n <= BITMAP_MAX))
    {
      if top >= |d| || n > BITMAP_MAX {
        return;
      }
      var offset := n / 32;
      if offset > top {
        return;
      }
      d := d[offset := d[offset][n % 32 := false]];
      Retop();
    }

    /** `n` is one more than the largest member, or 0 for the empty set. */
    ghost predicate Bounds(n: nat)
      reads this
    {
      (n > 0 ==> Has(n - 1)) && forall m: nat :: m >= n ==> !Has(m)
    }

    /** bitmap_nbits. */
    method NBits() returns (bits: nat)
      requires Valid()
      modifies this`top
      ensures Valid() && Bounds(bits) && bits <= 32 * (top + 1)
      ensures forall m: nat :: Has(m) == old(Has(m))
    {
      Retop();
      if top == 0 && d[0] == ZERO {
        return 0;
      }
      var k := MsbShift(d[top]);
      bits := (top + 1) * 32 - k;
      LargestBit(d, top, 31 - k);
    }

    /** bitmap_nbytes. */
    method NBytes() returns (n: nat)
      requires Valid()
      modifies this`top
      ensures Valid() && (exists bits: nat :: Bounds(bits) && n == (bits + 7) / 8) && n <= 4 * (top + 1)
      ensures forall m: nat :: Has(m) == old(Has(m))
    {
      var bits := NBits();
      n := (bits + 7) / 8;
    }

    /** The loops of bitmap_to_string. */
    method PutBytes(p: array<byte>, need: nat)
      requires need <= p.Length && need <= 4 * |d| && top < |d| && need <= 4 * (top + 1)
      modifies p
      ensures forall m :: 0 <= m < need ==> p[need - 1 - m] == ByteOf(d, m)
      ensures forall m :: need <= m < p.Length ==> p[m] == old(p[m])
    {
      var i, k := 0, 0;
      while i < top + 1
        invariant 0 <= i <= top + 1 && k == if 4 * i <= need then 4 * i else need
        invariant forall m :: 0 <= m < k ==> p[need - 1 - m] == ByteOf(d, m)
        invariant forall m :: need <= m < p.Length ==> p[m] == old(p[m])
      {
        var j := 0;
        while j < 4 && k < need
          invariant 0 <= j <= 4 && k == if 4 * i + j <= need then 4 * i + j else need
          invariant forall m :: 0 <= m < k ==> p[need - 1 - m] == ByteOf(d, m)
          invariant forall m :: need <= m < p.Length ==> p[m] == old(p[m])
        {
          assert k == 4 * i + j && k / 4 == i && k % 4 == j;
          p[need - 1 - k] := d[i][8 * j..8 * j + 8];
          k, j := k + 1, j + 1;
        }
        i := i + 1;
      }
    }

    /** bitmap_to_string: fills the front of the buffer with as many bytes as the largest member needs,
        most significant first; the bits of that string are the bits of the bitmap. */
    method ToString(p: array<byte>) returns (ok: bool, need: nat)
      requires Valid()
      modifies this`top, p
      ensures Valid() && (exists bits: nat :: Bounds(bits) && need == (bits + 7) / 8) && ok == (p.Length >= need)
      ensures forall m: nat :: Has(m) == old(Has(m))
      ensures ok ==> forall m: nat :: StringBit(p[..need], m) == Has(m)
      ensures forall i :: (if ok then need else 0) <= i < p.Length ==> p[i] == old(p[i])
    {
      need := NBytes();
      if p.Length < need {
        return false, need;
      }
      ghost var bits: nat :| Bounds(bits) && need == (bits + 7) / 8;
      PutBytes(p, need);
      ok := true;
      assert Bounds(bits);
      forall m: nat ensures StringBit(p[..need], m) == Has(m) {
        assert Has(m) ==> m < bits;
        BytesAreBits(d, p[..need], bits, m);
      }
    }

    /** bitmap_from_string: afterwards the bits of the bitmap are the bits of the string. */
    method FromString(s: seq<byte>) returns (ok: bool)
      requires Valid()
      modifies this
      ensures Valid() && ok == (|s| <= BITMAP_MAX / 8)
      ensures forall n: nat :: Has(n) == if ok then StringBit(s, n) else old(Has(n))
    {
      var l := |s|;
      if l > BITMAP_MAX / 8 {
        return false;
      }
      ok := Reserve(l * 8);
      Clear();
      if l == 0 {
        return;
      }
      assert forall n: nat :: !BitOf(d, n) by {
        forall n: nat ensures !BitOf(d, n) {
          assert !Has(n);
        }
      }
      top := (l + 3) / 4 - 1;
      var offset: int, shift: int := top, (l + 3) % 4 * 8;
      var i := 0;
      while i < l
        invariant 0 <= i <= l && Valid() && top == (l + 3) / 4 - 1
        invariant i < l ==> offset == (l - 1 - i) / 4 && shift == (l - 1 - i) % 4 * 8
        invariant forall n: nat :: BitOf(d, n) == (n / 8 >= l - i && StringBit(s, n))
      {
        ghost var before := d;
        d := d[offset := OrByte(d[offset], s[i], shift)];
        forall n: nat ensures BitOf(d, n) == (n / 8 >= l - 1 - i && StringBit(s, n)) {
          OrStep(before, d, s, i, n);
        }
        if shift == 0 {
          offset, shift := offset - 1, 24;
        } else {
          shift := shift - 8;
        }
        i := i + 1;
      }
      Retop();
    }
  }

  /** A string of the bytes of a word vector has its bits. */
  lemma BytesAreBits(d: seq<word>, s: seq<byte>, bits: nat, n: nat)
    requires |s| == (bits + 7) / 8 && |s| <= 4 * |d| && (BitOf(d, n) ==> n < bits)
    requires forall m :: 0 <= m < |s| ==> s[|s| - 1 - m] == ByteOf(d, m)
    ensures StringBit(s, n) == BitOf(d, n)
  {
    Split(n);
    if n / 8 < |s| {
      assert s[|s| - 1 - n / 8] == ByteOf(d, n / 8);
    }
  }

  /** Or-ing in byte `i` adds exactly its bits. */
  lemma OrStep(before: seq<word>, after: seq<word>, s: seq<byte>, i: nat, n: nat)
    requires i < |s| && (|s| - 1 - i) / 4 < |before|
    requires var k := |s| - 1 - i; after == before[k / 4 := OrByte(before[k / 4], s[i], k % 4 * 8)]
    requires BitOf(before, n) == (n / 8 >= |s| - i && StringBit(s, n))
    ensures BitOf(after, n) == (n / 8 >= |s| - 1 - i && StringBit(s, n))
  {
    var k := |s| - 1 - i;
    Split(n);
    if n / 8 == k {
      assert n / 32 == k / 4 && n % 32 == k % 4 * 8 + n % 8;
    }
  }

  /** The top one bit of the top word is the largest member. */
  lemma LargestBit(d: seq<word>, top: nat, j: nat)
    requires top < |d| && j < 32 && d[top][j]
    requires forall i :: top < i < |d| ==> d[i] == ZERO
    requires forall i :: j < i < 32 ==> !d[top][i]
    ensures var n := 32 * top + j;
      && n / 32 == top && n % 32 == j
      && forall m: nat :: m > n ==> !BitOf(d, m)
  {
    forall m: nat | m > 32 * top + j ensures !BitOf(d, m) {
      assert m / 32 > top || (m / 32 == top && m % 32 > j);
    }
  }

  /** A string with the same bits that is no longer than they need is the stripped string. */
  lemma StrippedExport(s: seq<byte>, t: seq<byte>, bits: nat)
    requires forall n: nat :: StringBit(t, n) == StringBit(s, n)
    requires |t| == (bits + 7) / 8 && (bits > 0 ==> StringBit(s, bits - 1))
    ensures t == Strip(s)
  {
    forall n: nat ensures StringBit(Strip(s), n) == StringBit(t, n) {
      StripKeepsBits(s, n);
    }
    StripKeepsBits(s, 0);
    if t != [] {
      assert StringBit(t, bits - 1) && (bits - 1) / 8 == |t| - 1;
    }
    BitsDetermine(t, Strip(s));
  }

  /** bitmap_to_string into a buffer of the size bitmap_nbytes asks for. */
  method Export(b: Bitmap) returns (s: seq<byte>, ghost bits: nat)
    requires b.Valid()
    modifies b`top
    ensures b.Valid() && b.Bounds(bits) && |s| == (bits + 7) / 8
    ensures forall m: nat :: StringBit(s, m) == b.Has(m) == old(b.Has(m))
  {
    var n := b.NBytes();
    ghost var k: nat :| b.Bounds(k) && n == (k + 7) / 8;
    var p := new byte[n](_ => seq(8, _ => false));
    var ok, need := b.ToString(p);
    bits :| b.Bounds(bits) && need == (bits + 7) / 8;
    SameBound(b, bits, k);
    s := p[..need];
  }

  lemma SameBound(b: Bitmap, i: nat, j: nat)
    requires b.Bounds(i) && b.Bounds(j)
    ensures i == j
  {
  }

  /** A bitmap's export is imported again, here or into another bitmap, exactly when all its members are below 2^24;
      then the other has the same members, and otherwise it keeps its own. */
  method ExportImport(b: Bitmap, c: Bitmap) returns (ok: bool)
    requires b.Valid() && c.Valid()
    modifies b, c
    ensures b.Valid() && c.Valid() && (ok <==> forall m: nat | old(b.Has(m)) :: m < 0x100_0000)
    ensures forall m: nat :: c.Has(m) == if ok then old(b.Has(m)) else old(c.Has(m))
    ensures b != c ==> forall m: nat :: b.Has(m) == old(b.Has(m))
  {
    hide StringBit;
    var s, bits := Export(b);
    assert bits > 0 ==> old(b.Has(bits - 1));
    assert forall m: nat :: old(b.Has(m)) ==> m < bits;
    ok := c.FromString(s);
  }

  /** The failing input: a bitmap takes bit 2^24, and its export is one byte too long to be imported. */
  method TopBitLost() returns (taken: bool, imported: bool)
    ensures taken && !imported
  {
    var b := new Bitmap();
    var c := new Bitmap();
    taken := b.SetBit(0x100_0000);
    assert b.Has(0x100_0000);
    imported := ExportImport(b, c);
  }

  /** What was imported exports as the string without its leading zero bytes. */
  method ImportExport(s: seq<byte>) returns (ok: bool, t: seq<byte>)
    ensures ok == (|s| <= 0x20_0000) && (ok ==> t == Strip(s))
  {
    hide StringBit, Strip;
    var c := new Bitmap();
    t := [];
    ok := c.FromString(s);
    if ok {
      ghost var bits;
      t, bits := Export(c);
      assert bits > 0 ==> c.Has(bits - 1);
      StrippedExport(s, t, bits);
    }
  }
}
