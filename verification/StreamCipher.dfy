/**
 A stream cipher over an abstract generator: a state that yields 64 bytes of
 keystream and steps to the next block. This is the part of ChaCha20 on which
 the serial and the multi-threaded packet ciphers agree.
 */
module StreamCipher {
  import opened Bits

  const BLOCK_LEN: nat := 64

  type Block = b: seq<byte> | |b| == BLOCK_LEN witness seq(BLOCK_LEN, _ => Zero(8))

  datatype Generator<!J> = Generator(block: J -> Block, next: J -> J)

  /** The generator state after `n` blocks. */
  function After<J>(g: Generator<J>, j: J, n: nat): J {
    if n == 0 then j else g.next(After(g, j, n - 1))
  }

  function KeystreamByte<J>(g: Generator<J>, j: J, i: nat): byte {
    g.block(After(g, j, i / BLOCK_LEN))[i % BLOCK_LEN]
  }

  /** Exclusive-or of `data` with the keystream that starts in state `j`. */
  function Crypt<J>(g: Generator<J>, j: J, data: seq<byte>): (r: seq<byte>)
    ensures |r| == |data|
  {
    seq(|data|, i requires 0 <= i < |data| => Xor(data[i], KeystreamByte(g, j, i)))
  }

  function Zeros(n: nat): (r: seq<byte>)
    ensures |r| == n
    ensures forall i :: 0 <= i < n ==> r[i] == Zero(8)
  {
    seq(n, _ => Zero(8))
  }

  function XorBytes(a: seq<byte>, b: seq<byte>): (r: seq<byte>)
    requires |a| <= |b|
    ensures |r| == |a|
  {
    seq(|a|, i requires 0 <= i < |a| => Xor(a[i], b[i]))
  }

  // ---- Laws of the keystream --------------------------------------------

  lemma {:induction false} AfterAdds<J>(g: Generator<J>, j: J, m: nat, n: nat)
    ensures After(g, After(g, j, m), n) == After(g, j, m + n)
  {
    if n > 0 {
      AfterAdds(g, j, m, n - 1);
    }
  }

  /** Encrypting twice from the same state restores the data. */
  lemma CryptTwice<J>(g: Generator<J>, j: J, data: seq<byte>)
    ensures Crypt(g, j, Crypt(g, j, data)) == data
  {
    forall i | 0 <= i < |data|
      ensures Crypt(g, j, Crypt(g, j, data))[i] == data[i]
    {
      XorTwice(data[i], KeystreamByte(g, j, i));
    }
  }

  /** Splitting the data at a block boundary and continuing from the state reached changes nothing. */
  lemma CryptSplit<J>(g: Generator<J>, j: J, blocks: nat, a: seq<byte>, b: seq<byte>)
    requires |a| == blocks * BLOCK_LEN
    ensures Crypt(g, j, a + b) == Crypt(g, j, a) + Crypt(g, After(g, j, blocks), b)
  {
    forall i | 0 <= i < |b|
      ensures KeystreamByte(g, j, |a| + i) == KeystreamByte(g, After(g, j, blocks), i)
    {
      BlockPosition(blocks, i);
      AfterAdds(g, j, blocks, i / BLOCK_LEN);
    }
  }

  lemma BlockPosition(blocks: nat, i: nat)
    ensures (blocks * BLOCK_LEN + i) / BLOCK_LEN == blocks + i / BLOCK_LEN
    ensures (blocks * BLOCK_LEN + i) % BLOCK_LEN == i % BLOCK_LEN
  {
  }

  // ---- Buffers ----------------------------------------------------------

  /** Copies up to one block into a 64-byte scratch block. */
  method ReadBlock(m: array<byte>, off: nat, n: nat) returns (tmp: Block)
    requires n <= BLOCK_LEN && off + n <= m.Length
    ensures tmp[..n] == m[off..off + n]
  {
    var buf := Zeros(BLOCK_LEN);
    var i := 0;
    while i < n
      invariant 0 <= i <= n && |buf| == BLOCK_LEN
      invariant buf[..i] == m[off..off + i]
    {
      buf := buf[i := m[off + i]];
      i := i + 1;
    }
    tmp := buf;
  }

  /** Copies a byte string into a buffer and leaves the rest of the buffer alone. */
  method WriteBytes(c: array<byte>, off: nat, out: seq<byte>)
    requires off + |out| <= c.Length
    modifies c
    ensures forall k :: off <= k < off + |out| ==> c[k] == out[k - off]
    ensures forall k :: 0 <= k < c.Length && !(off <= k < off + |out|) ==> c[k] == old(c[k])
  {
    var i := 0;
    while i < |out|
      invariant 0 <= i <= |out|
      invariant forall k :: off <= k < off + i ==> c[k] == out[k - off]
      invariant forall k :: 0 <= k < c.Length && !(off <= k < off + i) ==> c[k] == old(c[k])
    {
      c[off + i] := out[i];
      i := i + 1;
    }
  }
}
