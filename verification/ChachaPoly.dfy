/**
 The serial chacha20-poly1305 packet cipher of cipher-chachapoly-libcrypto.c.
 A packet is `aadlen` bytes of length header, encrypted under the header key,
 followed by `len` bytes of payload, encrypted under the main key from block
 one on, followed by a 16-byte Poly1305 tag whose key is the start of block zero.
 */
module ChachaPoly {
  import opened Bits
  import opened StreamCipher
  import Chacha

  const POLY1305_KEYLEN: nat := 32
  const POLY1305_TAGLEN: nat := 16

  type Tag = t: seq<byte> | |t| == POLY1305_TAGLEN witness seq(POLY1305_TAGLEN, _ => Zero(8))

  /**
   The two keys of a cipher context with the primitives they are used with:
   byte `i` of the keystream for a key, a packet sequence number and an initial
   block counter, and the one-time authenticator for a key and a message.
   */
  datatype Cipher = Cipher(
    keystream: (seq<byte>, nat, nat, nat) -> byte,
    mac: (seq<byte>, seq<byte>) -> Tag,
    mainKey: seq<byte>,
    headerKey: seq<byte>)

  function Stream(x: Cipher, key: seq<byte>, seqnr: nat, ctr: nat, n: nat): (r: seq<byte>)
    ensures |r| == n
  {
    seq<byte>(n, i requires 0 <= i < n => x.keystream(key, seqnr, ctr, i))
  }

  /** What EVP_Cipher writes for `data` after EVP_CipherInit with this nonce and counter. */
  function EvpCipher(x: Cipher, key: seq<byte>, seqnr: nat, ctr: nat, data: seq<byte>): (r: seq<byte>)
    ensures |r| == |data|
  {
    XorBytes(data, Stream(x, key, seqnr, ctr, |data|))
  }

  datatype Code = Success | MacInvalid | MessageIncomplete | InternalError

  /** A return code and the bytes written to the destination. */
  datatype Result = Result(code: Code, bytes: seq<byte>)

  function PolyKey(x: Cipher, seqnr: nat): seq<byte> {
    EvpCipher(x, x.mainKey, seqnr, 0, Zeros(POLY1305_KEYLEN))
  }

  predicate PacketFits(src: seq<byte>, len: nat, aadlen: nat, encrypt: bool) {
    |src| >= aadlen + len + (if encrypt then 0 else POLY1305_TAGLEN)
  }

  /** The packet operation, given the authenticator key and the two keystreams of the packet. */
  function PacketWith(x: Cipher, polyKey: seq<byte>, header: seq<byte>, main: seq<byte>,
                      src: seq<byte>, len: nat, aadlen: nat, encrypt: bool): Result
    requires PacketFits(src, len, aadlen, encrypt) && aadlen <= |header| && len <= |main|
  {
    var n := aadlen + len;
    if !encrypt && x.mac(polyKey, src[..n]) != src[n..n + POLY1305_TAGLEN] then Result(MacInvalid, [])
    else
      var text := XorBytes(src[..aadlen], header) + XorBytes(src[aadlen..n], main);
      Result(Success, if encrypt then text + x.mac(polyKey, text) else text)
  }

  /** What chachapoly_crypt returns and writes for a packet. */
  function SerialCrypt(x: Cipher, seqnr: nat, src: seq<byte>, len: nat, aadlen: nat, encrypt: bool): Result
    requires PacketFits(src, len, aadlen, encrypt)
  {
    PacketWith(x, PolyKey(x, seqnr), Stream(x, x.headerKey, seqnr, 0, aadlen), Stream(x, x.mainKey, seqnr, 1, len),
               src, len, aadlen, encrypt)
  }

  /** The big-endian 32-bit number in four bytes. */
  function PeekU32(b: seq<byte>): nat
    requires |b| == 4
  {
    Value(Concat(Concat(b[3], b[2]), Concat(b[1], b[0])))
  }

  datatype Length = Length(code: Code, plen: nat)

  function SerialGetLength(x: Cipher, seqnr: nat, cp: seq<byte>): Length {
    if |cp| < 4 then Length(MessageIncomplete, 0)
    else Length(Success, PeekU32(EvpCipher(x, x.headerKey, seqnr, 0, cp[..4])))
  }

  // ---- Laws -------------------------------------------------------------

  lemma EvpCipherInverts(x: Cipher, key: seq<byte>, seqnr: nat, ctr: nat, data: seq<byte>)
    ensures EvpCipher(x, key, seqnr, ctr, EvpCipher(x, key, seqnr, ctr, data)) == data
  {
    var s := Stream(x, key, seqnr, ctr, |data|);
    forall i | 0 <= i < |data| ensures XorBytes(XorBytes(data, s), s)[i] == data[i] {
      XorTwice(data[i], s[i]);
    }
  }

  /** An encrypted packet: header and payload, each under its own stream, and their tag. */
  lemma Sealed(x: Cipher, seqnr: nat, src: seq<byte>, len: nat, aadlen: nat)
    requires |src| >= aadlen + len
    ensures var head := EvpCipher(x, x.headerKey, seqnr, 0, src[..aadlen]);
      var body := EvpCipher(x, x.mainKey, seqnr, 1, src[aadlen..aadlen + len]);
      SerialCrypt(x, seqnr, src, len, aadlen, true).bytes == head + body + x.mac(PolyKey(x, seqnr), head + body)
  {
    hide XorBytes, Stream, PolyKey;
  }

  /** A packet with its own tag is decrypted. */
  lemma Opened(x: Cipher, seqnr: nat, head: seq<byte>, body: seq<byte>, tag: seq<byte>)
    requires tag == x.mac(PolyKey(x, seqnr), head + body) && |tag| == POLY1305_TAGLEN
    ensures SerialCrypt(x, seqnr, head + body + tag, |body|, |head|, false) ==
      Result(Success, EvpCipher(x, x.headerKey, seqnr, 0, head) + EvpCipher(x, x.mainKey, seqnr, 1, body))
  {
    hide XorBytes, Stream, PolyKey;
    Reassemble(head, body, tag);
  }

  /** Decrypting what was encrypted under the same sequence number succeeds and restores the packet. */
  lemma SerialRoundTrip(x: Cipher, seqnr: nat, src: seq<byte>, len: nat, aadlen: nat)
    requires |src| >= aadlen + len
    ensures var sent := SerialCrypt(x, seqnr, src, len, aadlen, true).bytes;
            && |sent| == aadlen + len + POLY1305_TAGLEN
            && SerialCrypt(x, seqnr, sent, len, aadlen, false) == Result(Success, src[..aadlen + len])
  {
    hide SerialCrypt, EvpCipher, PolyKey;
    var n := aadlen + len;
    var head := EvpCipher(x, x.headerKey, seqnr, 0, src[..aadlen]);
    var body := EvpCipher(x, x.mainKey, seqnr, 1, src[aadlen..n]);
    Sealed(x, seqnr, src, len, aadlen);
    Opened(x, seqnr, head, body, x.mac(PolyKey(x, seqnr), head + body));
    EvpCipherInverts(x, x.headerKey, seqnr, 0, src[..aadlen]);
    EvpCipherInverts(x, x.mainKey, seqnr, 1, src[aadlen..n]);
    assert src[..aadlen] + src[aadlen..n] == src[..n];
  }

  lemma Reassemble(head: seq<byte>, body: seq<byte>, tag: seq<byte>)
    ensures var sent := head + body + tag; var n := |head| + |body|;
            sent[..n] == head + body && sent[n..n + |tag|] == tag && sent[..|head|] == head && sent[|head|..n] == body
  {
  }

  /** The receiver reads the packet length in clear before it has the rest of the packet. */
  lemma LengthOfEncrypted(x: Cipher, seqnr: nat, src: seq<byte>, len: nat, aadlen: nat)
    requires |src| >= aadlen + len && aadlen >= 4
    ensures SerialGetLength(x, seqnr, SerialCrypt(x, seqnr, src, len, aadlen, true).bytes)
         == Length(Success, PeekU32(src[..4]))
  {
    var sent := SerialCrypt(x, seqnr, src, len, aadlen, true).bytes;
    var head := EvpCipher(x, x.headerKey, seqnr, 0, src[..4]);
    assert sent[..4] == head;
    EvpCipherInverts(x, x.headerKey, seqnr, 0, src[..4]);
  }

  // ---- The keystream of chacha.c ----------------------------------------

  /** The sequence number as the last eight bytes of the initialisation vector, big-endian. */
  function SeqnrBytes(seqnr: nat): (r: seq<byte>)
    ensures |r| == 8
  {
    var bits := FromValue(seqnr, 64);
    seq<byte>(8, i requires 0 <= i < 8 => bits[8 * (7 - i)..8 * (8 - i)])
  }

  function ChachaState(key: seq<byte>, seqnr: nat, ctr: nat): Chacha.State
    requires |key| >= 32
  {
    var words := Chacha.KeyedWords(seq(16, _ => Zero(32)), key, 256, Chacha.Constants(256));
    var words := Chacha.WithCounter(words, ctr);
    var nonce := SeqnrBytes(seqnr);
    Chacha.State(words[14 := Chacha.LoadWord(nonce, 0)][15 := Chacha.LoadWord(nonce, 1)], Chacha.QuarterStep, Chacha.ROUNDS)
  }

  function ChachaKeystream(key: seq<byte>, seqnr: nat, ctr: nat, i: nat): byte {
    if |key| < 32 then Zero(8) else KeystreamByte(Chacha.CHACHA, ChachaState(key, seqnr, ctr), i)
  }

  /** The bytes of a block counter, least significant first. */
  function CounterBytes(ctr: nat): (r: seq<byte>)
    ensures |r| == 8
  {
    var bits := FromValue(ctr, 64);
    seq<byte>(8, i requires 0 <= i < 8 => bits[8 * i..8 * i + 8])
  }

  lemma CounterLoads(ctr: nat)
    ensures Concat(Chacha.LoadWord(CounterBytes(ctr), 0), Chacha.LoadWord(CounterBytes(ctr), 1)) == FromValue(ctr, 64)
  {
    hide FromValue;
    var bits, b := FromValue(ctr, 64), CounterBytes(ctr);
    assert Chacha.LoadWord(b, 0) == bits[..32] && Chacha.LoadWord(b, 1) == bits[32..];
  }

  /** Key, nonce and counter set up on a fresh context make the state of the packet. */
  lemma SetUpState(words: Chacha.Words, key: seq<byte>, seqnr: nat, ctr: nat)
    requires |key| >= 32
    requires words[..12] == Chacha.KeyedWords(seq(16, _ => Zero(32)), key, 256, Chacha.Constants(256))[..12]
    requires Concat(words[12], words[13]) == FromValue(ctr, 64)
    requires words[14] == Chacha.LoadWord(SeqnrBytes(seqnr), 0) && words[15] == Chacha.LoadWord(SeqnrBytes(seqnr), 1)
    ensures Chacha.State(words, Chacha.QuarterStep, Chacha.ROUNDS) == ChachaState(key, seqnr, ctr)
  {
    hide FromValue, Chacha.KeyedWords, Chacha.LoadWord, SeqnrBytes;
    var made := ChachaState(key, seqnr, ctr).words;
    var bits := FromValue(ctr, 64);
    assert bits[..32] == words[12] && bits[32..] == words[13];
    forall i | 0 <= i < 16 ensures words[i] == made[i] {
      if i < 12 {
        assert words[i] == words[..12][i];
      }
    }
  }

  /**
   chacha_keysetup, chacha_ivsetup and chacha_encrypt_bytes on a buffer, as
   cipher-chachapoly.c calls them: the output is the packet's data combined with
   the keystream of its key, sequence number and counter.
   */
  method ChachaStream(key: seq<byte>, seqnr: nat, ctr: nat, src: array<byte>, dest: array<byte>, n: nat)
    requires |key| >= 32 && n <= src.Length && n <= dest.Length
    modifies dest
    ensures forall i :: 0 <= i < n ==> dest[i] == Xor(old(src[i]), ChachaKeystream(key, seqnr, ctr, i))
    ensures forall i :: n <= i < dest.Length ==> dest[i] == old(dest[i])
  {
    hide Chacha.KeyedWords, Chacha.LoadWord, SeqnrBytes, FromValue, ChachaState, KeystreamByte;
    var ctx := new Chacha.ChachaCtx();
    ctx.KeySetup(key, 256);
    if ctr == 0 {
      ctx.IvSetup(SeqnrBytes(seqnr), []);
      FromValueOfZero(64);
    } else {
      ctx.IvSetup(SeqnrBytes(seqnr), CounterBytes(ctr));
      CounterLoads(ctr);
    }
    SetUpState(ctx.input, key, seqnr, ctr);
    ghost var s, before := src[..], dest[..];
    ctx.EncryptBytes(src, dest, n);
    assert forall i :: 0 <= i < n ==> dest[..][i] == dest[i];
    assert forall i :: n <= i < dest.Length ==> dest[..][i] == before[n..][i - n];
  }

  // ---- The buffers ------------------------------------------------------

  /** One 16-byte chunk, `i` bytes into the range. */
  method XorChunk(dest: array<byte>, src: array<byte>, off: nat, keystream: seq<byte>, i: nat)
    requires off + i + 16 <= dest.Length && off + i + 16 <= src.Length && i + 16 <= |keystream|
    modifies dest
    ensures forall k :: off + i <= k < off + i + 16 ==> dest[k] == Xor(old(src[k]), keystream[k - off])
    ensures forall k :: 0 <= k < dest.Length && !(off + i <= k < off + i + 16) ==> dest[k] == old(dest[k])
  {
    hide Xor;
    var r := XorBytes(src[off + i..off + i + 16], keystream[i..i + 16]);
    assert forall k :: off + i <= k < off + i + 16 ==> r[k - (off + i)] == Xor(src[k], keystream[k - off]);
    WriteBytes(dest, off + i, r);
  }

  /**
   Combines `len` bytes of `src` with a keystream into `dest`, in 16-byte
   chunks and then byte by byte. The buffers may be one, at the same offset.
   */
  method FastXor(dest: array<byte>, src: array<byte>, off: nat, keystream: seq<byte>, len: nat)
    requires off + len <= dest.Length && off + len <= src.Length && len <= |keystream|
    modifies dest
    ensures forall i :: off <= i < off + len ==> dest[i] == Xor(old(src[i]), keystream[i - off])
    ensures forall i :: 0 <= i < dest.Length && !(off <= i < off + len) ==> dest[i] == old(dest[i])
  {
    hide Xor;
    ghost var s := src[..];
    var i := 0;
    while i + 16 <= len
      invariant i <= len
      invariant forall k :: off <= k < off + i ==> dest[k] == Xor(s[k], keystream[k - off])
      invariant forall k :: 0 <= k < dest.Length && !(off <= k < off + i) ==> dest[k] == old(dest[k])
      invariant forall k :: off + i <= k < src.Length ==> src[k] == s[k]
    {
      XorChunk(dest, src, off, keystream, i);
      i := i + 16;
    }
    while i < len
      invariant i <= len
      invariant forall k :: off <= k < off + i ==> dest[k] == Xor(s[k], keystream[k - off])
      invariant forall k :: 0 <= k < dest.Length && !(off <= k < off + i) ==> dest[k] == old(dest[k])
      invariant forall k :: off + i <= k < src.Length ==> src[k] == s[k]
    {
      dest[off + i] := Xor(src[off + i], keystream[i]);
      i := i + 1;
    }
  }

  /** Encrypts header and payload into `dest`, which may be the same buffer as `src`. */
  method CryptText(dest: array<byte>, src: array<byte>, len: nat, aadlen: nat, header: seq<byte>, main: seq<byte>)
    requires aadlen + len <= src.Length && aadlen + len <= dest.Length && aadlen <= |header| && len <= |main|
    modifies dest
    ensures dest[..aadlen + len] == XorBytes(old(src[..aadlen]), header) + XorBytes(old(src[aadlen..aadlen + len]), main)
    ensures dest[aadlen + len..] == old(dest[aadlen + len..])
  {
    hide Xor, XorBytes;
    ghost var s, before := src[..], dest[..];
    FastXor(dest, src, 0, header, aadlen);
    FastXor(dest, src, aadlen, main, len);
    TextIs(dest[..], s, header, main, aadlen, len);
    assert dest[aadlen + len..] == before[aadlen + len..];
  }

  lemma TextIs(d: seq<byte>, s: seq<byte>, header: seq<byte>, main: seq<byte>, aadlen: nat, len: nat)
    requires aadlen + len <= |d| && aadlen + len <= |s| && aadlen <= |header| && len <= |main|
    requires forall i :: 0 <= i < aadlen ==> d[i] == Xor(s[i], header[i])
    requires forall i :: aadlen <= i < aadlen + len ==> d[i] == Xor(s[i], main[i - aadlen])
    ensures d[..aadlen + len] == XorBytes(s[..aadlen], header) + XorBytes(s[aadlen..aadlen + len], main)
  {
    hide Xor;
    assert d[..aadlen] == XorBytes(s[..aadlen], header);
    assert d[aadlen..aadlen + len] == XorBytes(s[aadlen..aadlen + len], main);
    assert d[..aadlen + len] == d[..aadlen] + d[aadlen..aadlen + len];
  }

  lemma TagAppended(before: seq<byte>, after: seq<byte>, n: nat, tag: seq<byte>)
    requires n + |tag| <= |before| == |after|
    requires forall k :: 0 <= k < |after| ==> after[k] == if n <= k < n + |tag| then tag[k - n] else before[k]
    ensures after[..n + |tag|] == before[..n] + tag && after[n + |tag|..] == before[n + |tag|..]
  {
  }

  /** Checks the tag before anything else when decrypting; appends a tag when encrypting. */
  method CryptPacket(x: Cipher, polyKey: seq<byte>, header: seq<byte>, main: seq<byte>,
                     dest: array<byte>, src: array<byte>, len: nat, aadlen: nat, encrypt: bool) returns (r: Code)
    requires PacketFits(src[..], len, aadlen, encrypt) && aadlen <= |header| && len <= |main|
    requires aadlen + len + (if encrypt then POLY1305_TAGLEN else 0) <= dest.Length
    modifies dest
    ensures var res := PacketWith(x, polyKey, header, main, old(src[..]), len, aadlen, encrypt);
            r == res.code && dest[..|res.bytes|] == res.bytes && dest[|res.bytes|..] == old(dest[|res.bytes|..])
  {
    hide XorBytes;
    var n := aadlen + len;
    ghost var s, before := src[..], dest[..];
    assert s[..n] == src[..n] && s[..aadlen] == src[..aadlen] && s[aadlen..n] == src[aadlen..n];
    if !encrypt {
      assert s[n..n + POLY1305_TAGLEN] == src[n..n + POLY1305_TAGLEN];
      if x.mac(polyKey, src[..n]) != src[n..n + POLY1305_TAGLEN] {
        assert dest[0..] == before[0..];
        return MacInvalid;
      }
    }
    CryptText(dest, src, len, aadlen, header, main);
    if encrypt {
      ghost var crypted := dest[..];
      var tag := x.mac(polyKey, dest[..n]);
      WriteBytes(dest, n, tag);
      TagAppended(crypted, dest[..], n, tag);
      assert dest[n + POLY1305_TAGLEN..] == before[n..][POLY1305_TAGLEN..];
    }
    return Success;
  }

  /** chachapoly_crypt; `dest` and `src` may be the same buffer. */
  method ChachapolyCrypt(x: Cipher, seqnr: nat, dest: array<byte>, src: array<byte>, len: nat, aadlen: nat, encrypt: bool)
    returns (r: Code)
    requires PacketFits(src[..], len, aadlen, encrypt)
    requires aadlen + len + (if encrypt then POLY1305_TAGLEN else 0) <= dest.Length
    modifies dest
    ensures var res := SerialCrypt(x, seqnr, old(src[..]), len, aadlen, encrypt);
            r == res.code && dest[..|res.bytes|] == res.bytes && dest[|res.bytes|..] == old(dest[|res.bytes|..])
  {
    r := CryptPacket(x, PolyKey(x, seqnr), Stream(x, x.headerKey, seqnr, 0, aadlen), Stream(x, x.mainKey, seqnr, 1, len),
                     dest, src, len, aadlen, encrypt);
  }

  /** The number made of the first `n` bytes, most significant first. */
  function BigEndian(b: seq<byte>, n: nat): nat
    requires n <= |b|
  {
    if n == 0 then 0 else BigEndian(b, n - 1) * 0x100 + Value(b[n - 1])
  }

  /** Reading four bytes one by one gives the 32-bit number they make up. */
  lemma PeekU32Bytes(b: seq<byte>)
    requires |b| == 4
    ensures PeekU32(b) == BigEndian(b, 4) < 0x1_0000_0000
  {
    hide Value;
    Pow2Of32();
    ValueConcat(b[3], b[2]);
    ValueConcat(b[1], b[0]);
    ValueConcat(Concat(b[3], b[2]), Concat(b[1], b[0]));
    forall i | 0 <= i < 4 ensures Value(b[i]) < 0x100 {
      ValueBelow(b[i]);
    }
    assert BigEndian(b, 1) == Value(b[0]) && BigEndian(b, 2) == BigEndian(b, 1) * 0x100 + Value(b[1]);
    assert BigEndian(b, 3) == BigEndian(b, 2) * 0x100 + Value(b[2]);
  }

  /**
   chachapoly_get_length: decrypts the first four bytes of a packet and reads
   them as a 32-bit number; fewer bytes are an incomplete message.
   */
  method ChachapolyGetLength(x: Cipher, seqnr: nat, cp: seq<byte>) returns (r: Length)
    ensures r == SerialGetLength(x, seqnr, cp) && r.plen < 0x1_0000_0000
  {
    if |cp| < 4 {
      return Length(MessageIncomplete, 0);
    }
    ghost var clear := EvpCipher(x, x.headerKey, seqnr, 0, cp[..4]);
    PeekU32Bytes(clear);
    hide PeekU32, Value, Xor;
    var plen, i := 0, 0;
    while i < 4
      invariant 0 <= i <= 4 && plen == BigEndian(clear, i)
    {
      plen := plen * 0x100 + Value(Xor(cp[i], x.keystream(x.headerKey, seqnr, 0, i)));
      i := i + 1;
    }
    return Length(Success, plen);
  }
}
