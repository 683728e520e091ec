/**
 The ChaCha20 cipher of chacha.c: sixteen 32-bit words of state, twenty rounds
 per 64-byte block, and a bulk encryption loop that also works in place.
 */
module Chacha {
  import opened Bits
  import opened StreamCipher

  const TWO_64: nat := 0x1_0000_0000_0000_0000

  type Words = w: seq<word> | |w| == 16 witness seq(16, _ => Zero(32))

  /** Word `i` of a little-endian byte string. */
  function LoadWord(p: seq<byte>, i: nat): word
    requires 4 * i + 4 <= |p|
  {
    Concat(Concat(p[4 * i], p[4 * i + 1]), Concat(p[4 * i + 2], p[4 * i + 3]))
  }

  /** Byte `b` of a word, in little-endian order. */
  function ByteOf(w: word, b: nat): byte
    requires b < 4
  {
    w[8 * b..8 * b + 8]
  }

  function Plus(v: word, w: word): word {
    Add(v, w, false)
  }

  /** PLUS is addition modulo 2^32. */
  lemma PlusIsModular(v: word, w: word)
    ensures Value(Plus(v, w)) == (Value(v) + Value(w)) % 0x1_0000_0000
  {
    hide Value, Add;
    Pow2Of32();
    AddValue(v, w, false);
    ValueBelow(v);
    ValueBelow(w);
  }

  /** ROTATE moves every bit up by `n` places, the top ones to the bottom. */
  lemma RotateMovesBits(w: word, n: nat, i: nat)
    requires n < 32 && i < 32
    ensures Rotl(w, n)[(i + n) % 32] == w[i]
  {
  }

  /** The quarter round of section 2.1 of RFC 8439. */
  function QuarterRound(a: word, b: word, c: word, d: word): (word, word, word, word) {
    var a1 := Plus(a, b); var d1 := Rotl(Xor(d, a1), 16);
    var c1 := Plus(c, d1); var b1 := Rotl(Xor(b, c1), 12);
    var a2 := Plus(a1, b1); var d2 := Rotl(Xor(d1, a2), 8);
    var c2 := Plus(c1, d2); var b2 := Rotl(Xor(b1, c2), 7);
    (a2, b2, c2, d2)
  }

  /** The word positions of the four column and the four diagonal quarter rounds. */
  const SCHEDULE: seq<(nat, nat, nat, nat)> := [
    (0, 4, 8, 12), (1, 5, 9, 13), (2, 6, 10, 14), (3, 7, 11, 15),
    (0, 5, 10, 15), (1, 6, 11, 12), (2, 7, 8, 13), (3, 4, 9, 14)]

  /** One quarter round applied to four of the sixteen words. */
  function QuarterRoundAt(x: Words, q: (nat, nat, nat, nat)): Words
    requires q.0 < 16 && q.1 < 16 && q.2 < 16 && q.3 < 16
  {
    var (a, b, c, d) := QuarterRound(x[q.0], x[q.1], x[q.2], x[q.3]);
    x[q.0 := a][q.1 := b][q.2 := c][q.3 := d]
  }

  /** Quarter round number `q`, going round the schedule. */
  function QuarterStep(x: Words, q: nat): Words {
    QuarterRoundAt(x, SCHEDULE[q % 8])
  }

  type RoundFn = (Words, nat) -> Words

  /** The first `n` quarter rounds; two rounds go once through the schedule of eight. */
  function Quarters(step: RoundFn, x: Words, n: nat): Words {
    if n == 0 then x else step(Quarters(step, x, n - 1), n - 1)
  }

  function AddWords(x: Words, y: Words): Words {
    seq(16, i requires 0 <= i < 16 => Plus(x[i], y[i]))
  }

  function Serialize(x: Words): Block {
    seq(64, i requires 0 <= i < 64 => ByteOf(x[i / 4], i % 4))
  }

  /** A cipher state: the sixteen words, with the round function and the number of rounds. */
  datatype State = State(words: Words, step: RoundFn, rounds: nat)

  function BlockWords(s: State): Words {
    AddWords(Quarters(s.step, s.words, 4 * s.rounds), s.words)
  }

  function BlockOf(s: State): Block {
    Serialize(BlockWords(s))
  }

  /** Increment of word 12, with a carry into word 13 when word 12 wraps. */
  function NextWords(j: Words): Words {
    var lo := Inc(j[12]);
    if AllZero(lo) then j[12 := lo][13 := Inc(j[13])] else j[12 := lo]
  }

  function NextState(s: State): State {
    s.(words := NextWords(s.words))
  }

  const CHACHA: Generator<State> := Generator(BlockOf, NextState)

  // ---- The block counter ------------------------------------------------

  /** The 64-bit block counter held in words 12 (low) and 13 (high). */
  function CounterOf(j: Words): nat {
    Value(Concat(j[12], j[13]))
  }

  /** The same words with another counter value. */
  function WithCounter(j: Words, c: nat): Words {
    var bits := FromValue(c, 64);
    j[12 := bits[..32]][13 := bits[32..]]
  }

  /** The two-word increment is the 64-bit increment, wrap-around included. */
  lemma NextWordsIncrements(j: Words)
    ensures CounterOf(j) < TWO_64
    ensures CounterOf(NextWords(j)) == (CounterOf(j) + 1) % TWO_64
  {
    IncConcat(j[12], j[13]);
    IncValue(Concat(j[12], j[13]));
    ValueBelow(Concat(j[12], j[13]));
    Pow2Of64();
  }

  lemma WithOwnCounter(j: Words)
    ensures WithCounter(j, CounterOf(j)) == j
  {
    FromValueOfValue(Concat(j[12], j[13]));
  }

  function WordsAfter(j: Words, n: nat): Words {
    if n == 0 then j else NextWords(WordsAfter(j, n - 1))
  }

  lemma {:induction false} StateAfter(s: State, n: nat)
    ensures After(CHACHA, s, n) == s.(words := WordsAfter(s.words, n))
  {
    if n > 0 {
      StateAfter(s, n - 1);
    }
  }

  lemma {:induction false} CounterAfter(j: Words, n: nat)
    ensures CounterOf(WordsAfter(j, n)) == (CounterOf(j) + n) % TWO_64
  {
    NextWordsIncrements(j);
    if n > 0 {
      CounterAfter(j, n - 1);
      NextWordsIncrements(WordsAfter(j, n - 1));
      IncrementMod(CounterOf(j), n);
    }
  }

  lemma IncrementMod(x: nat, n: nat)
    requires n > 0
    ensures ((x + (n - 1)) % TWO_64 + 1) % TWO_64 == (x + n) % TWO_64
  {
  }

  lemma {:induction false} OtherWordsAfter(j: Words, n: nat)
    ensures forall i :: 0 <= i < 16 && i != 12 && i != 13 ==> WordsAfter(j, n)[i] == j[i]
  {
    if n > 0 {
      OtherWordsAfter(j, n - 1);
    }
  }

  /** After `n` blocks the counter has advanced by `n` modulo 2^64 and nothing else has changed. */
  lemma AdvanceByBlocks(s: State, n: nat)
    ensures After(CHACHA, s, n) == s.(words := WithCounter(s.words, (CounterOf(s.words) + n) % TWO_64))
  {
    var j := WordsAfter(s.words, n);
    StateAfter(s, n);
    CounterAfter(s.words, n);
    OtherWordsAfter(s.words, n);
    WithOwnCounter(j);
    assert WithCounter(j, CounterOf(j)) == WithCounter(s.words, CounterOf(j));
  }

  // ---- One block --------------------------------------------------------

  function XorMessage(x: Words, m: Block): Words {
    seq(16, i requires 0 <= i < 16 => Xor(x[i], LoadWord(m, i)))
  }

  /** One block of output: keystream words combined with message words, then stored as bytes. */
  function EncryptBlock(s: State, m: Block): Block {
    Serialize(XorMessage(BlockWords(s), m))
  }

  lemma ByteOfLoaded(p: seq<byte>, i: nat, b: nat)
    requires 4 * i + 4 <= |p| && b < 4
    ensures ByteOf(LoadWord(p, i), b) == p[4 * i + b]
  {
  }

  lemma XorThenStore(w: word, p: seq<byte>, i: nat, b: nat)
    requires 4 * i + 4 <= |p| && b < 4
    ensures ByteOf(Xor(w, LoadWord(p, i)), b) == Xor(p[4 * i + b], ByteOf(w, b))
  {
    ByteOfLoaded(p, i, b);
    var m := LoadWord(p, i);
    assert ByteOf(Xor(w, m), b) == Xor(ByteOf(w, b), ByteOf(m, b));
    XorTwice(ByteOf(w, b), ByteOf(m, b));
  }

  /** Combining by words and storing is combining by bytes. */
  lemma XorMessageBytes(x: Words, m: Block)
    ensures Serialize(XorMessage(x, m)) == XorBytes(m, Serialize(x))
  {
    forall i | 0 <= i < 64
      ensures Serialize(XorMessage(x, m))[i] == Xor(m[i], Serialize(x)[i])
    {
      XorMessageByte(x, m, i);
    }
  }

  lemma XorMessageByte(x: Words, m: Block, i: nat)
    requires i < 64
    ensures Serialize(XorMessage(x, m))[i] == Xor(m[i], Serialize(x)[i])
  {
    var w, b := i / 4, i % 4;
    assert i == 4 * w + b;
    XorThenStore(x[w], m, w, b);
  }

  /** One block of output is the message block combined with the keystream block. */
  lemma EncryptBlockIsStream(s: State, m: Block)
    ensures EncryptBlock(s, m) == XorBytes(m, BlockOf(s))
  {
    hide Serialize, XorMessage, BlockWords;
    XorMessageBytes(BlockWords(s), m);
  }

  /** The rounds of one block: each turn of the loop runs the eight quarter rounds of the schedule. */
  method Rounds(j: Words, step: RoundFn, rounds: nat) returns (x: Words)
    requires rounds % 2 == 0
    ensures x == Quarters(step, j, 4 * rounds)
  {
    x := j;
    var i := rounds;
    while i > 0
      invariant 0 <= i <= rounds && i % 2 == 0
      invariant x == Quarters(step, j, 4 * (rounds - i))
    {
      var q := 4 * (rounds - i);
      i := i - 2;
      while q < 4 * (rounds - i)
        invariant q <= 4 * (rounds - i)
        invariant x == Quarters(step, j, q)
      {
        x := step(x, q);
        q := q + 1;
      }
    }
  }

  /** One turn of the block loop: rounds, final additions, combination with the message, and storing. */
  method CryptBlock(s: State, m: Block) returns (c: Block)
    requires s.rounds % 2 == 0
    ensures c == XorBytes(m, BlockOf(s))
  {
    hide Serialize, XorMessage, AddWords, Quarters, XorBytes;
    var x := Rounds(s.words, s.step, s.rounds);
    x := AddWords(x, s.words);
    x := XorMessage(x, m);
    c := Serialize(x);
    EncryptBlockIsStream(s, m);
  }

  /** Encrypts bytes `off .. off + n` of the message, where `off` is the start of block number `blocks`. */
  method CryptUpToBlock(ghost j0: State, ghost blocks: nat, j: State, m: array<byte>, c: array<byte>, off: nat, n: nat)
    requires j.rounds % 2 == 0 && j == After(CHACHA, j0, blocks) && off == blocks * BLOCK_LEN
    requires n <= BLOCK_LEN && off + n <= m.Length && off + n <= c.Length
    modifies c
    ensures forall i :: off <= i < off + n ==> c[i] == Xor(old(m[i]), KeystreamByte(CHACHA, j0, i))
    ensures forall i :: 0 <= i < c.Length && !(off <= i < off + n) ==> c[i] == old(c[i])
  {
    hide BlockOf, Xor, After;
    var tmp := ReadBlock(m, off, n);
    var out := CryptBlock(j, tmp);
    forall i | off <= i < off + n
      ensures out[i - off] == Xor(m[i], KeystreamByte(CHACHA, j0, i))
    {
      BlockPosition(blocks, i - off);
      assert tmp[i - off] == tmp[..n][i - off];
    }
    WriteBytes(c, off, out[..n]);
  }

  /**
   The block loop: encrypts the first `bytes` bytes of `m` into `c`, which may be
   the same buffer, and returns the state that continues the keystream.
   */
  method Bulk(j0: State, m: array<byte>, c: array<byte>, bytes: nat) returns (j: State)
    requires j0.rounds % 2 == 0 && bytes <= m.Length && bytes <= c.Length
    modifies c
    ensures c[..] == Crypt(CHACHA, j0, old(m[..bytes])) + old(c[bytes..])
    ensures j == After(CHACHA, j0, (bytes + 63) / BLOCK_LEN)
  {
    hide BlockOf, Xor, NextWords;
    j := j0;
    ghost var m0, blocks := m[..], 0;
    var off := 0;
    while off < bytes
      invariant off <= bytes && j.rounds == j0.rounds
      invariant if off < bytes then off == blocks * BLOCK_LEN else blocks == (bytes + 63) / BLOCK_LEN
      invariant j == After(CHACHA, j0, blocks)
      invariant forall i :: 0 <= i < off ==> c[i] == Xor(m0[i], KeystreamByte(CHACHA, j0, i))
      invariant forall i :: off <= i < c.Length ==> c[i] == old(c[i])
      invariant forall i :: off <= i < m.Length ==> m[i] == m0[i]
    {
      var n := if bytes - off < BLOCK_LEN then bytes - off else BLOCK_LEN;
      CryptUpToBlock(j0, blocks, j, m, c, off, n);
      j := NextState(j);
      off, blocks := off + n, blocks + 1;
    }
    assert c[..bytes] == Crypt(CHACHA, j0, m0[..bytes]);
    assert c[..] == c[..bytes] + c[bytes..];
  }

  // ---- The cipher context -----------------------------------------------

  const ROUNDS: nat := 20

  // The little-endian words of "expand 32-byte k" and "expand 16-byte k".
  const SIGMA: seq<nat> := [0x6170_7865, 0x3320_646e, 0x7962_2d32, 0x6b20_6574]
  const TAU: seq<nat> := [0x6170_7865, 0x3120_646e, 0x7962_2d36, 0x6b20_6574]

  /** Key setup: a 256-bit key fills words 4 to 11, a 128-bit key fills them twice. */
  function KeyedWord(j: Words, k: seq<byte>, kbits: nat, constants: seq<nat>, i: nat): word
    requires |constants| == 4 && |k| >= (if kbits == 256 then 32 else 16) && i < 16
  {
    if i < 4 then FromValue(constants[i], 32)
    else if i < 8 || (i < 12 && kbits == 256) then LoadWord(k, i - 4)
    else if i < 12 then LoadWord(k, i - 8)
    else j[i]
  }

  function KeyedWords(j: Words, k: seq<byte>, kbits: nat, constants: seq<nat>): Words
    requires |constants| == 4 && |k| >= (if kbits == 256 then 32 else 16)
  {
    seq(16, i requires 0 <= i < 16 => KeyedWord(j, k, kbits, constants, i))
  }

  /** Every byte of the key can be read back from words 4 to 11, a 128-bit key twice, and words 0 to 3 hold
      the constants as numbers. */
  lemma KeyBytesKept(j: Words, k: seq<byte>, kbits: nat, i: nat)
    requires |k| >= (if kbits == 256 then 32 else 16) && i < 32
    ensures var ws := KeyedWords(j, k, kbits, Constants(kbits));
      && ByteOf(ws[4 + i / 4], i % 4) == k[if kbits == 256 then i else i % 16]
      && Value(ws[i % 4]) == Constants(kbits)[i % 4]
  {
    hide LoadWord, ByteOf, FromValue, Value, Constants;
    var w, b := i / 4, i % 4;
    assert i == 4 * w + b;
    var from := if kbits == 256 || w < 4 then w else w - 4;
    assert (if kbits == 256 then i else i % 16) == 4 * from + b;
    assert KeyedWords(j, k, kbits, Constants(kbits))[4 + w] == LoadWord(k, from);
    ByteOfLoaded(k, from, b);
    ConstantWord(kbits, b);
  }

  lemma ConstantWord(kbits: nat, i: nat)
    requires i < 4
    ensures Value(FromValue(Constants(kbits)[i], 32)) == Constants(kbits)[i]
  {
    hide FromValue, Value, Constants;
    Pow2Of32();
    ValueOfFromValue(Constants(kbits)[i], 32);
  }

  function Constants(kbits: nat): (c: seq<nat>)
    ensures |c| == 4 && forall i :: 0 <= i < 4 ==> c[i] < 0x1_0000_0000
  {
    if kbits == 256 then SIGMA else TAU
  }

  /**
   One call on a whole message gives the same output as two calls split at a
   multiple of 64 bytes, the second with the counter the first one left.
   */
  lemma SplitCalls(s: State, blocks: nat, a: seq<byte>, b: seq<byte>)
    requires |a| == blocks * BLOCK_LEN
    ensures (|a| + 63) / 64 == blocks
    ensures Crypt(CHACHA, s, a + b)
         == Crypt(CHACHA, s, a)
          + Crypt(CHACHA, s.(words := WithCounter(s.words, (CounterOf(s.words) + blocks) % TWO_64)), b)
  {
    CryptSplit(CHACHA, s, blocks, a, b);
    AdvanceByBlocks(s, blocks);
  }

  class ChachaCtx {
    var input: Words

    constructor ()
      ensures input == seq(16, _ => Zero(32))
    {
      input := seq(16, _ => Zero(32));
    }

    function CipherState(): State
      reads this
    {
      State(input, QuarterStep, ROUNDS)
    }

    /** chacha_keysetup: the key, byte for byte, in words 4 to 11, the constants in words 0 to 3. */
    method KeySetup(k: seq<byte>, kbits: nat)
      requires |k| >= (if kbits == 256 then 32 else 16)
      modifies this
      ensures input == KeyedWords(old(input), k, kbits, Constants(kbits))
      ensures forall i :: 0 <= i < 32 ==> ByteOf(input[4 + i / 4], i % 4) == k[if kbits == 256 then i else i % 16]
      ensures forall i :: 0 <= i < 4 ==> Value(input[i]) == Constants(kbits)[i]
      ensures input[12..] == old(input)[12..]
    {
      hide LoadWord, FromValue, ByteOf, Value;
      ghost var start := input;
      input := input[4 := LoadWord(k, 0)][5 := LoadWord(k, 1)][6 := LoadWord(k, 2)][7 := LoadWord(k, 3)];
      var off, constants := if kbits == 256 then 4 else 0, if kbits == 256 then SIGMA else TAU;
      input := input[8 := LoadWord(k, off)][9 := LoadWord(k, off + 1)][10 := LoadWord(k, off + 2)][11 := LoadWord(k, off + 3)];
      input := input[0 := FromValue(constants[0], 32)][1 := FromValue(constants[1], 32)];
      input := input[2 := FromValue(constants[2], 32)][3 := FromValue(constants[3], 32)];
      assert input == KeyedWords(start, k, kbits, Constants(kbits));
      forall i | 0 <= i < 32
        ensures ByteOf(input[4 + i / 4], i % 4) == k[if kbits == 256 then i else i % 16]
        ensures i < 4 ==> Value(input[i]) == Constants(kbits)[i]
      {
        KeyBytesKept(start, k, kbits, i);
      }
    }

    /** Sets the nonce words and the counter, which is zero when none is given. */
    method IvSetup(iv: seq<byte>, counter: seq<byte>)
      requires |iv| >= 8 && (counter == [] || |counter| >= 8)
      modifies this
      ensures input[..12] == old(input[..12])
      ensures input[14] == LoadWord(iv, 0) && input[15] == LoadWord(iv, 1)
      ensures Concat(input[12], input[13])
           == if counter == [] then Zero(64) else Concat(LoadWord(counter, 0), LoadWord(counter, 1))
    {
      var lo: word := if counter == [] then Zero(32) else LoadWord(counter, 0);
      var hi: word := if counter == [] then Zero(32) else LoadWord(counter, 1);
      input := input[12 := lo][13 := hi][14 := LoadWord(iv, 0)][15 := LoadWord(iv, 1)];
    }

    /** Encrypts or decrypts the first `bytes` bytes of `m` into `c`, which may be the same buffer. */
    method EncryptBytes(m: array<byte>, c: array<byte>, bytes: nat)
      requires bytes <= m.Length && bytes <= c.Length
      modifies this, c
      ensures c[..] == Crypt(CHACHA, old(CipherState()), old(m[..bytes])) + old(c[bytes..])
      ensures input == WithCounter(old(input), (old(CounterOf(input)) + (bytes + 63) / 64) % TWO_64)
    {
      var s := Bulk(CipherState(), m, c, bytes);
      AdvanceByBlocks(CipherState(), (bytes + 63) / 64);
      input := s.words;
    }
  }
}
