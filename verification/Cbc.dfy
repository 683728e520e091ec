/**
 Cipher block chaining in place, as cipher-aes.c does it (section 6.2 of NIST
 SP 800-38A): encryption runs forward, decryption backward, so that source and
 destination may be the same buffer. The block cipher is a parameter.
 */
module Cbc {
  import opened Bits

  type Block = b: seq<byte> | |b| == 16 witness seq(16, _ => Zero(8))

  datatype Cipher = Cipher(enc: Block -> Block, dec: Block -> Block)

  /** Decryption undoes encryption. */
  ghost predicate Lawful(c: Cipher) { forall b: Block :: c.dec(c.enc(b)) == b }

  function XorBlock(a: Block, b: Block): Block {
    seq<byte>(16, j requires 0 <= j < 16 => Xor(a[j], b[j]))
  }

  function BlockAt(s: seq<byte>, i: nat): Block
    requires 16 * i + 16 <= |s|
  {
    s[16 * i..16 * i + 16]
  }

  predicate Whole(s: seq<byte>) { |s| % 16 == 0 }

  // ---- Chaining ---------------------------------------------------------

  /** Ciphertext block `i`. */
  function EncBlock(c: Cipher, iv: Block, s: seq<byte>, i: nat): Block
    requires 16 * i + 16 <= |s|
    decreases i
  {
    c.enc(XorBlock(BlockAt(s, i), if i == 0 then iv else EncBlock(c, iv, s, i - 1)))
  }

  /** Plaintext block `i`. */
  function DecBlock(c: Cipher, iv: Block, s: seq<byte>, i: nat): Block
    requires 16 * i + 16 <= |s|
  {
    XorBlock(c.dec(BlockAt(s, i)), if i == 0 then iv else BlockAt(s, i - 1))
  }

  function Encrypt(c: Cipher, iv: Block, s: seq<byte>): (r: seq<byte>)
    requires Whole(s)
    ensures |r| == |s|
  {
    seq<byte>(|s|, k requires 0 <= k < |s| => EncBlock(c, iv, s, k / 16)[k % 16])
  }

  function Decrypt(c: Cipher, iv: Block, s: seq<byte>): (r: seq<byte>)
    requires Whole(s)
    ensures |r| == |s|
  {
    seq<byte>(|s|, k requires 0 <= k < |s| => DecBlock(c, iv, s, k / 16)[k % 16])
  }

  /** The chaining value a call leaves behind: the last block of ciphertext. */
  function NextIv(iv: Block, ciphertext: seq<byte>): Block
    requires Whole(ciphertext)
  {
    if ciphertext == [] then iv else BlockAt(ciphertext, |ciphertext| / 16 - 1)
  }

  lemma ByteInBlock(s: seq<byte>, k: nat)
    requires Whole(s) && k < |s|
    ensures 16 * (k / 16) + 16 <= |s| && s[k] == BlockAt(s, k / 16)[k % 16]
  {
  }

  /** A buffer of whole blocks is determined by its blocks. */
  lemma BlocksDetermine(x: seq<byte>, y: seq<byte>)
    requires Whole(x) && |x| == |y|
    requires forall i {:trigger BlockAt(x, i)} :: 0 <= i < |x| / 16 ==> BlockAt(x, i) == BlockAt(y, i)
    ensures x == y
  {
    forall k | 0 <= k < |x| ensures x[k] == y[k] {
      ByteInBlock(x, k);
      ByteInBlock(y, k);
    }
  }

  lemma ConcatBlock(a: seq<byte>, b: seq<byte>, i: nat)
    requires Whole(a) && 16 * i + 16 <= |a| + |b|
    ensures i < |a| / 16 ==> BlockAt(a + b, i) == BlockAt(a, i)
    ensures i >= |a| / 16 ==> BlockAt(a + b, i) == BlockAt(b, i - |a| / 16)
  {
  }

  lemma DecryptBlockAt(c: Cipher, iv: Block, s: seq<byte>, i: nat)
    requires Whole(s) && 16 * i + 16 <= |s|
    ensures BlockAt(Decrypt(c, iv, s), i) == DecBlock(c, iv, s, i)
  {
    hide DecBlock;
    forall j | 0 <= j < 16 ensures BlockAt(Decrypt(c, iv, s), i)[j] == DecBlock(c, iv, s, i)[j] {
      assert (16 * i + j) / 16 == i && (16 * i + j) % 16 == j;
    }
  }

  lemma EncryptBlockAt(c: Cipher, iv: Block, s: seq<byte>, i: nat)
    requires Whole(s) && 16 * i + 16 <= |s|
    ensures BlockAt(Encrypt(c, iv, s), i) == EncBlock(c, iv, s, i)
  {
    hide EncBlock;
    forall j | 0 <= j < 16 ensures BlockAt(Encrypt(c, iv, s), i)[j] == EncBlock(c, iv, s, i)[j] {
      assert (16 * i + j) / 16 == i && (16 * i + j) % 16 == j;
    }
  }

  lemma XorBlockTwice(a: Block, b: Block)
    ensures XorBlock(XorBlock(a, b), b) == a
  {
    forall j | 0 <= j < 16 ensures XorBlock(XorBlock(a, b), b)[j] == a[j] {
      XorTwice(a[j], b[j]);
    }
  }

  /** Decryption undoes encryption, for any number of blocks. */
  lemma DecryptEncrypt(c: Cipher, iv: Block, s: seq<byte>)
    requires Lawful(c) && Whole(s)
    ensures Decrypt(c, iv, Encrypt(c, iv, s)) == s
  {
    hide Encrypt, Decrypt, DecBlock;
    var e := Encrypt(c, iv, s);
    forall i {:trigger BlockAt(s, i)} | 0 <= i < |s| / 16 ensures BlockAt(Decrypt(c, iv, e), i) == BlockAt(s, i) {
      DecryptBlockAt(c, iv, e, i);
      BlockBack(c, iv, s, i);
    }
    BlocksDetermine(s, Decrypt(c, iv, e));
  }

  lemma BlockBack(c: Cipher, iv: Block, s: seq<byte>, i: nat)
    requires Lawful(c) && Whole(s) && 16 * i + 16 <= |s|
    ensures DecBlock(c, iv, Encrypt(c, iv, s), i) == BlockAt(s, i)
  {
    hide Encrypt;
    EncryptBlockAt(c, iv, s, i);
    if i > 0 {
      EncryptBlockAt(c, iv, s, i - 1);
    }
    XorBlockTwice(BlockAt(s, i), if i == 0 then iv else EncBlock(c, iv, s, i - 1));
  }

  // ---- Consecutive calls ------------------------------------------------

  lemma {:induction false} EncPrefix(c: Cipher, iv: Block, a: seq<byte>, b: seq<byte>, i: nat)
    requires 16 * i + 16 <= |a|
    ensures EncBlock(c, iv, a + b, i) == EncBlock(c, iv, a, i)
    decreases i
  {
    hide XorBlock;
    assert BlockAt(a + b, i) == BlockAt(a, i);
    if i > 0 {
      EncPrefix(c, iv, a, b, i - 1);
    }
  }

  lemma {:induction false} EncSuffix(c: Cipher, iv: Block, a: seq<byte>, b: seq<byte>, i: nat)
    requires Whole(a) && 16 * i + 16 <= |b|
    ensures EncBlock(c, iv, a + b, |a| / 16 + i) == EncBlock(c, NextIv(iv, Encrypt(c, iv, a)), b, i)
    decreases i
  {
    hide Encrypt, XorBlock, BlockAt;
    var n := |a| / 16;
    ConcatBlock(a, b, n + i);
    if i > 0 {
      EncSuffix(c, iv, a, b, i - 1);
    } else if n > 0 {
      EncPrefix(c, iv, a, b, n - 1);
      EncryptBlockAt(c, iv, a, n - 1);
    }
  }

  /** Encrypting in two calls, the second from the saved chaining value, is encrypting in one. */
  lemma EncryptSplit(c: Cipher, iv: Block, a: seq<byte>, b: seq<byte>)
    requires Whole(a) && Whole(b)
    ensures Whole(a + b)
    ensures Encrypt(c, iv, a + b) == Encrypt(c, iv, a) + Encrypt(c, NextIv(iv, Encrypt(c, iv, a)), b)
  {
    hide Encrypt, EncBlock, NextIv;
    var x, y := Encrypt(c, iv, a + b), Encrypt(c, iv, a) + Encrypt(c, NextIv(iv, Encrypt(c, iv, a)), b);
    forall i {:trigger BlockAt(x, i)} | 0 <= i < |x| / 16 ensures BlockAt(x, i) == BlockAt(y, i) {
      EncryptBlockAt(c, iv, a + b, i);
      ConcatBlock(Encrypt(c, iv, a), Encrypt(c, NextIv(iv, Encrypt(c, iv, a)), b), i);
      if i < |a| / 16 {
        EncPrefix(c, iv, a, b, i);
        EncryptBlockAt(c, iv, a, i);
      } else {
        EncSuffix(c, iv, a, b, i - |a| / 16);
        EncryptBlockAt(c, NextIv(iv, Encrypt(c, iv, a)), b, i - |a| / 16);
      }
    }
    BlocksDetermine(x, y);
  }

  /** The same for decryption. */
  lemma DecryptSplit(c: Cipher, iv: Block, a: seq<byte>, b: seq<byte>)
    requires Whole(a) && Whole(b)
    ensures Whole(a + b)
    ensures Decrypt(c, iv, a + b) == Decrypt(c, iv, a) + Decrypt(c, NextIv(iv, a), b)
  {
    hide Decrypt, DecBlock, NextIv;
    var x, y := Decrypt(c, iv, a + b), Decrypt(c, iv, a) + Decrypt(c, NextIv(iv, a), b);
    forall i {:trigger BlockAt(x, i)} | 0 <= i < |x| / 16 ensures BlockAt(x, i) == BlockAt(y, i) {
      DecryptBlockAt(c, iv, a + b, i);
      ConcatBlock(Decrypt(c, iv, a), Decrypt(c, NextIv(iv, a), b), i);
      if i < |a| / 16 {
        DecPrefix(c, iv, a, b, i);
        DecryptBlockAt(c, iv, a, i);
      } else {
        DecSuffix(c, iv, a, b, i - |a| / 16);
        DecryptBlockAt(c, NextIv(iv, a), b, i - |a| / 16);
      }
    }
    BlocksDetermine(x, y);
  }

  lemma DecPrefix(c: Cipher, iv: Block, a: seq<byte>, b: seq<byte>, i: nat)
    requires 16 * i + 16 <= |a|
    ensures DecBlock(c, iv, a + b, i) == DecBlock(c, iv, a, i)
  {
    hide XorBlock;
    assert BlockAt(a + b, i) == BlockAt(a, i) && (i > 0 ==> BlockAt(a + b, i - 1) == BlockAt(a, i - 1));
  }

  lemma DecSuffix(c: Cipher, iv: Block, a: seq<byte>, b: seq<byte>, i: nat)
    requires Whole(a) && 16 * i + 16 <= |b|
    ensures DecBlock(c, iv, a + b, |a| / 16 + i) == DecBlock(c, NextIv(iv, a), b, i)
  {
    hide XorBlock, BlockAt;
    var n := |a| / 16;
    ConcatBlock(a, b, n + i);
    if n + i > 0 {
      ConcatBlock(a, b, n + i - 1);
    }
  }

  // ---- The buffers ------------------------------------------------------

  /** Reads a block. */
  method ReadBlock(a: array<byte>, off: nat) returns (b: Block)
    requires off + 16 <= a.Length
    ensures forall j :: 0 <= j < 16 ==> b[j] == a[off + j]
  {
    b := a[off..off + 16];
  }

  lemma BlockIs(b: Block, s: seq<byte>, i: nat)
    requires 16 * i + 16 <= |s| && forall j :: 0 <= j < 16 ==> b[j] == s[16 * i + j]
    ensures b == BlockAt(s, i)
  {
  }

  lemma BlockHas(s: seq<byte>, i: nat)
    requires 16 * i + 16 <= |s|
    ensures forall k :: 16 * i <= k < 16 * i + 16 ==> s[k] == BlockAt(s, i)[k - 16 * i]
  {
  }

  /** The inner loops: the exclusive or of two blocks, byte by byte. */
  method XorBytes(x: Block, y: Block) returns (buf: Block)
    ensures buf == XorBlock(x, y)
  {
    buf := x;
    var j := 0;
    while j < 16
      invariant 0 <= j <= 16
      invariant forall m :: 0 <= m < j ==> buf[m] == Xor(x[m], y[m])
      invariant forall m :: j <= m < 16 ==> buf[m] == x[m]
    {
      buf := buf[j := Xor(buf[j], y[j])];
      j := j + 1;
    }
  }

  method WriteBlock(a: array<byte>, off: nat, b: Block)
    requires off + 16 <= a.Length
    modifies a
    ensures forall k :: 0 <= k < a.Length ==> a[k] == if off <= k < off + 16 then b[k - off] else old(a[k])
  {
    var j := 0;
    while j < 16
      invariant 0 <= j <= 16
      invariant forall k :: 0 <= k < a.Length ==> a[k] == if off <= k < off + j then b[k - off] else old(a[k])
    {
      a[off + j] := b[j];
      j := j + 1;
    }
  }

  class RijndaelCtx {
    const cipher: Cipher
    var iv: Block

    /** ssh_rijndael_init with a key and a chaining value. */
    constructor (cipher: Cipher, iv: Block)
      ensures this.cipher == cipher && this.iv == iv
    {
      this.cipher, this.iv := cipher, iv;
    }

    /** The encrypting half of ssh_rijndael_cbc. */
    method EncryptInPlace(dest: array<byte>, src: array<byte>)
      requires src.Length % 16 == 0 && dest.Length >= src.Length
      modifies this, dest
      ensures dest[..src.Length] == Encrypt(cipher, old(iv), old(src[..]))
      ensures forall k :: src.Length <= k < dest.Length ==> dest[k] == old(dest[k])
      ensures iv == NextIv(old(iv), Encrypt(cipher, old(iv), old(src[..])))
    {
      hide Encrypt, NextIv, XorBlock, BlockAt;
      ghost var s, iv0 := src[..], iv;
      ghost var out := Encrypt(cipher, iv0, s);
      var i, cprev := 0, iv;
      while i < src.Length / 16
        invariant 0 <= i <= src.Length / 16 && iv == iv0
        invariant cprev == if i == 0 then iv0 else BlockAt(out, i - 1)
        invariant forall k :: 0 <= k < 16 * i ==> dest[k] == out[k]
        invariant forall k :: 16 * i <= k < src.Length ==> src[k] == s[k]
        invariant forall k :: src.Length <= k < dest.Length ==> dest[k] == old(dest[k])
      {
        EncryptStep(cipher, iv0, s, i);
        var plain := ReadBlock(src, 16 * i);
        BlockIs(plain, s, i);
        var buf := XorBytes(plain, cprev);
        cprev := cipher.enc(buf);
        WriteBlock(dest, 16 * i, cprev);
        BlockHas(out, i);
        i := i + 1;
      }
      iv := cprev;
      LastBlock(iv0, out);
    }

    /** The decrypting half of ssh_rijndael_cbc. */
    method DecryptInPlace(dest: array<byte>, src: array<byte>)
      requires src.Length % 16 == 0 && dest.Length >= src.Length > 0
      modifies this, dest
      ensures dest[..src.Length] == Decrypt(cipher, old(iv), old(src[..]))
      ensures forall k :: src.Length <= k < dest.Length ==> dest[k] == old(dest[k])
      ensures iv == NextIv(old(iv), old(src[..]))
    {
      hide Decrypt, NextIv, XorBlock, BlockAt;
      ghost var s, iv0 := src[..], iv;
      ghost var out := Decrypt(cipher, iv0, s);
      var n := src.Length;
      var saved := ReadBlock(src, n - 16);
      BlockIs(saved, s, n / 16 - 1);
      var i := n / 16;
      while i > 0
        invariant 0 <= i <= n / 16 && iv == iv0
        invariant forall k :: 16 * i <= k < n ==> dest[k] == out[k]
        invariant forall k :: 0 <= k < 16 * i ==> src[k] == s[k]
        invariant forall k :: n <= k < dest.Length ==> dest[k] == old(dest[k])
      {
        i := i - 1;
        DecryptStep(cipher, iv0, s, i);
        var cnow := ReadBlock(src, 16 * i);
        BlockIs(cnow, s, i);
        var ivp := iv;
        if i > 0 {
          ivp := ReadBlock(src, 16 * (i - 1));
          BlockIs(ivp, s, i - 1);
        }
        var plain := XorBytes(cipher.dec(cnow), ivp);
        WriteBlock(dest, 16 * i, plain);
        BlockHas(out, i);
      }
      iv := saved;
      LastBlock(iv0, s);
    }

    /** ssh_rijndael_cbc, on one buffer or on two; not `ok` where the source ends the process. */
    method CbcCrypt(dest: array<byte>, src: array<byte>, encrypting: bool) returns (ok: bool)
      requires dest.Length >= src.Length
      modifies this, dest
      ensures ok == (src.Length % 16 == 0)
      ensures ok && encrypting ==> dest[..src.Length] == Encrypt(cipher, old(iv), old(src[..]))
      ensures ok && encrypting ==> iv == NextIv(old(iv), Encrypt(cipher, old(iv), old(src[..])))
      ensures ok && !encrypting ==> dest[..src.Length] == Decrypt(cipher, old(iv), old(src[..]))
      ensures ok && !encrypting ==> iv == NextIv(old(iv), old(src[..]))
      ensures forall k :: (if ok then src.Length else 0) <= k < dest.Length ==> dest[k] == old(dest[k])
      ensures !ok ==> iv == old(iv)
    {
      if src.Length == 0 {
        return true;
      }
      if src.Length % 16 != 0 {
        return false;
      }
      if encrypting {
        EncryptInPlace(dest, src);
      } else {
        DecryptInPlace(dest, src);
      }
      return true;
    }
  }

  lemma EncryptStep(c: Cipher, iv: Block, s: seq<byte>, i: nat)
    requires Whole(s) && 16 * i + 16 <= |s|
    ensures var e := Encrypt(c, iv, s);
      BlockAt(e, i) == c.enc(XorBlock(BlockAt(s, i), if i == 0 then iv else BlockAt(e, i - 1)))
  {
    hide Encrypt;
    EncryptBlockAt(c, iv, s, i);
    if i > 0 {
      EncryptBlockAt(c, iv, s, i - 1);
    }
  }

  lemma DecryptStep(c: Cipher, iv: Block, s: seq<byte>, i: nat)
    requires Whole(s) && 16 * i + 16 <= |s|
    ensures BlockAt(Decrypt(c, iv, s), i) ==
      XorBlock(c.dec(BlockAt(s, i)), if i == 0 then iv else BlockAt(s, i - 1))
  {
    hide Decrypt;
    DecryptBlockAt(c, iv, s, i);
  }

  lemma LastBlock(iv: Block, e: seq<byte>)
    requires Whole(e)
    ensures NextIv(iv, e) == if |e| == 0 then iv else BlockAt(e, |e| / 16 - 1)
  {
  }
}
