/**
 Address arithmetic of addr.c: masks, order and increment of 32-bit and 128-bit
 addresses, for CIDR prefixes (section 3.1 of RFC 4632, section 2.3 of RFC 4291).
 An address is a list of 32-bit words, most significant word first, in host
 order; a word is a list of bits, least significant first.
 */
module Addr {
  import opened Bits

  type Words = seq<word>

  /** All bits of an address, least significant first. */
  function Flat(ws: Words): (r: Bits)
    ensures |r| == 32 * |ws|
  {
    if ws == [] then [] else Concat(Flat(ws[1..]), ws[0])
  }

  /** The number an address stands for. */
  function Number(ws: Words): nat { Value(Flat(ws)) }

  lemma {:induction false} FlatBit(ws: Words, i: nat)
    requires i < 32 * |ws|
    ensures Flat(ws)[i] == ws[|ws| - 1 - i / 32][i % 32]
  {
    var rest := 32 * (|ws| - 1);
    if i < rest {
      FlatBit(ws[1..], i);
    } else {
      assert i / 32 == |ws| - 1 && i % 32 == i - rest;
    }
  }

  // ---- Masks ------------------------------------------------------------

  predicate MaskBit(l: nat, j: nat, b: nat) { 32 * j + 31 < l + b }

  /** The netmask of length `l`: ones in the `l` leading bits. */
  function Mask(n: nat, l: nat): (ws: Words)
    ensures |ws| == n
  {
    seq<word>(n, j requires 0 <= j < n => seq(32, b requires 0 <= b < 32 => MaskBit(l, j, b)))
  }

  function And(a: Words, b: Words): (r: Words)
    requires |a| == |b|
    ensures |r| == |a|
  {
    seq<word>(|a|, j requires 0 <= j < |a| => AndWord(a[j], b[j]))
  }

  function Or(a: Words, b: Words): (r: Words)
    requires |a| == |b|
    ensures |r| == |a|
  {
    seq<word>(|a|, j requires 0 <= j < |a| => OrWord(a[j], b[j]))
  }

  function Not(a: Words): (r: Words)
    ensures |r| == |a|
  {
    seq<word>(|a|, j requires 0 <= j < |a| => NotWord(a[j]))
  }

  function AndWord(a: word, b: word): word { seq(32, i requires 0 <= i < 32 => a[i] && b[i]) }

  function OrWord(a: word, b: word): word { seq(32, i requires 0 <= i < 32 => a[i] || b[i]) }

  lemma WithItself(w: word)
    ensures AndWord(w, w) == w && OrWord(w, w) == w
  {
  }

  function NotWord(a: word): word { seq(32, i requires 0 <= i < 32 => !a[i]) }

  const ZERO_WORD: word := seq(32, _ => false)
  const ONES: word := seq(32, _ => true)

  /** The bits of a prefix of length `l` in an address of `n` words, and the host bits below them. */
  function HostBits(n: nat, l: nat): nat
    requires l <= 32 * n
  {
    32 * n - l
  }

  lemma MaskFlat(n: nat, l: nat, i: nat)
    requires l <= 32 * n && i < 32 * n
    ensures Flat(Mask(n, l))[i] <==> i >= HostBits(n, l)
  {
    FlatBit(Mask(n, l), i);
  }

  lemma AndFlat(a: Words, b: Words, i: nat)
    requires |a| == |b| && i < 32 * |a|
    ensures Flat(And(a, b))[i] == (Flat(a)[i] && Flat(b)[i])
  {
    hide Flat;
    FlatBit(a, i);
    FlatBit(b, i);
    FlatBit(And(a, b), i);
  }

  lemma OrNotFlat(a: Words, m: Words, i: nat)
    requires |a| == |m| && i < 32 * |a|
    ensures Flat(Or(a, Not(m)))[i] == (Flat(a)[i] || !Flat(m)[i])
  {
    hide Flat;
    var j := |a| - 1 - i / 32;
    FlatBit(a, i);
    FlatBit(m, i);
    FlatBit(Or(a, Not(m)), i);
    assert Or(a, Not(m))[j] == OrWord(a[j], NotWord(m[j]));
  }

  lemma {:induction false} FlatInjective(a: Words, b: Words)
    requires |a| == |b| && Flat(a) == Flat(b)
    ensures a == b
  {
    if a != [] {
      var k := 32 * (|a| - 1);
      assert Flat(a)[k..] == a[0] && Flat(b)[k..] == b[0];
      assert Flat(a)[..k] == Flat(a[1..]) && Flat(b)[..k] == Flat(b[1..]);
      FlatInjective(a[1..], b[1..]);
    }
  }

  // ---- Prefix and range -------------------------------------------------

  lemma SplitValue(f: Bits, k: nat)
    requires k <= |f|
    ensures Value(f) == Value(f[..k]) + Pow2(k) * Value(f[k..])
  {
    assert f == Concat(f[..k], f[k..]);
    ValueConcat(f[..k], f[k..]);
  }

  lemma {:induction false} ZeroValue(f: Bits)
    requires forall i :: 0 <= i < |f| ==> !f[i]
    ensures Value(f) == 0
  {
    if f != [] {
      ZeroValue(f[1..]);
    }
  }

  lemma {:induction false} OnesValue(f: Bits)
    requires forall i :: 0 <= i < |f| ==> f[i]
    ensures Value(f) == Pow2(|f|) - 1
  {
    if f != [] {
      OnesValue(f[1..]);
    }
  }

  lemma OneMore(p: nat, x: nat)
    ensures p * (x + 1) == p * x + p
  {
  }

  lemma {:induction false} NextMultiple(p: nat, x: nat, y: nat)
    requires x > y
    ensures p * x >= p * y + p
    decreases x
  {
    OneMore(p, x - 1);
    if x > y + 1 {
      NextMultiple(p, x - 1, y);
    }
  }

  lemma Digits(p: nat, x: nat, h: nat, a: nat)
    requires p > 0 && a < p
    ensures p * h <= a + p * x <= p * h + (p - 1) <==> x == h
  {
    if x > h {
      NextMultiple(p, x, h);
    } else if x < h {
      NextMultiple(p, h, x);
    }
  }

  /** Bits agree from `k` on. */
  predicate SameAbove(f: Bits, g: Bits, k: nat) {
    |f| == |g| && k <= |f| && f[k..] == g[k..]
  }

  /** A number lies between a network with zero host bits and the same network with host bits one exactly
      when its bits above the host bits are those of the network. */
  lemma RangeIsPrefix(host: Bits, net: Bits, top: Bits, k: nat)
    requires |host| == |net| == |top| && k <= |net|
    requires forall i :: 0 <= i < k ==> !net[i] && top[i]
    requires net[k..] == top[k..]
    ensures Value(net) <= Value(host) <= Value(top) <==> SameAbove(host, net, k)
  {
    SplitValue(host, k);
    SplitValue(net, k);
    SplitValue(top, k);
    ZeroValue(net[..k]);
    OnesValue(top[..k]);
    ValueBelow(host[..k]);
    Digits(Pow2(k), Value(host[k..]), Value(net[k..]), Value(host[..k]));
    if Value(host[k..]) == Value(net[k..]) {
      ValueInjective(host[k..], net[k..]);
    }
  }

  /** The host part under the mask is zero. */
  predicate HostIsZero(net: Words, l: nat)
    requires l <= 32 * |net|
  {
    And(net, Not(Mask(|net|, l))) == seq(|net|, _ => ZERO_WORD)
  }

  lemma HostZeroBit(net: Words, l: nat, j: nat, b: nat)
    requires l <= 32 * |net| && HostIsZero(net, l) && j < |net| && b < 32 && !MaskBit(l, j, b)
    ensures !net[j][b]
  {
    var z, m := And(net, Not(Mask(|net|, l))), Mask(|net|, l);
    assert z[j] == ZERO_WORD && z[j] == AndWord(net[j], NotWord(m[j]));
    assert !z[j][b] && !m[j][b];
  }

  lemma HostZeroFlat(net: Words, l: nat, i: nat)
    requires l <= 32 * |net| && HostIsZero(net, l) && i < HostBits(|net|, l)
    ensures !Flat(net)[i]
  {
    hide Flat, HostIsZero;
    FlatBit(net, i);
    HostZeroBit(net, l, |net| - 1 - i / 32, i % 32);
  }

  /** For a prefix with zero host bits, masking a host gives the network exactly when the host lies between
      the network and the network with its host bits one. */
  lemma MatchIsRange(host: Words, net: Words, l: nat)
    requires |host| == |net| && l <= 32 * |net| && HostIsZero(net, l)
    ensures And(host, Mask(|net|, l)) == net <==>
      Number(net) <= Number(host) <= Number(Or(net, Not(Mask(|net|, l))))
  {
    var n, k := |net|, HostBits(|net|, l);
    var top, masked := Or(net, Not(Mask(n, l))), And(host, Mask(n, l));
    var fh, fn, ft, fm := Flat(host), Flat(net), Flat(top), Flat(masked);
    forall i | 0 <= i < 32 * n
      ensures ft[i] == (fn[i] || i < k) && fm[i] == (fh[i] && i >= k) && (i < k ==> !fn[i])
    {
      MaskFlat(n, l, i);
      OrNotFlat(net, Mask(n, l), i);
      AndFlat(host, Mask(n, l), i);
      if i < k {
        HostZeroFlat(net, l, i);
      }
    }
    assert fn[k..] == ft[k..];
    RangeIsPrefix(fh, fn, ft, k);
    MaskedIsNet(fh, fn, fm, k);
    if fm == fn {
      FlatInjective(masked, net);
    }
  }

  lemma MaskedIsNet(fh: Bits, fn: Bits, fm: Bits, k: nat)
    requires |fh| == |fn| == |fm| && k <= |fn|
    requires forall i :: 0 <= i < |fn| ==> fm[i] == (fh[i] && i >= k) && (i < k ==> !fn[i])
    ensures fm == fn <==> SameAbove(fh, fn, k)
  {
    if fm == fn {
      assert forall i :: k <= i < |fn| ==> fh[i] == fn[i];
    }
    if SameAbove(fh, fn, k) {
      assert forall i :: k <= i < |fn| ==> fh[i] == fh[k..][i - k] && fn[i] == fn[k..][i - k];
    }
  }

  // ---- Order ------------------------------------------------------------

  /** Byte `i` of an address in network order. */
  function ByteOf(ws: Words, i: nat): byte
    requires i < 4 * |ws|
  {
    ws[i / 4][8 * (3 - i % 4)..8 * (3 - i % 4) + 8]
  }

  /** The loop of addr_cmp: the difference at the first byte from `i` on that differs, or 0. */
  function ByteOrder(a: Words, b: Words, i: nat): int
    requires |a| == |b| && i <= 4 * |a|
    decreases 4 * |a| - i
  {
    if i == 4 * |a| then 0
    else if ByteOf(a, i) != ByteOf(b, i) then Value(ByteOf(a, i)) - Value(ByteOf(b, i))
    else ByteOrder(a, b, i + 1)
  }

  lemma FlatByte(ws: Words, i: nat)
    requires i < 4 * |ws|
    ensures var k := 8 * (4 * |ws| - 1 - i); k + 8 <= |Flat(ws)| && Flat(ws)[k..k + 8] == ByteOf(ws, i)
  {
    hide Flat;
    var k := 8 * (4 * |ws| - 1 - i);
    forall b | 0 <= b < 8 ensures Flat(ws)[k + b] == ByteOf(ws, i)[b] {
      FlatBit(ws, k + b);
      assert (k + b) / 32 == |ws| - 1 - i / 4 && (k + b) % 32 == 8 * (3 - i % 4) + b;
    }
  }

  predicate SameSign(x: int, y: int) { (x < 0 <==> y < 0) && (x > 0 <==> y > 0) }

  lemma TopDigit(p: nat, x: nat, y: nat, a: nat, b: nat)
    requires a < p && b < p && x != y
    ensures SameSign((a + p * x) - (b + p * y), x - y)
  {
    if x > y {
      NextMultiple(p, x, y);
    } else {
      NextMultiple(p, y, x);
    }
  }

  /** The number made of the bytes from `i` on, as its first byte and the rest. */
  lemma ByteSplit(ws: Words, i: nat)
    requires i < 4 * |ws|
    ensures var m := 8 * (4 * |ws| - i);
      && m <= |Flat(ws)| && Value(Flat(ws)[..m - 8]) < Pow2(m - 8)
      && Value(Flat(ws)[..m]) == Value(Flat(ws)[..m - 8]) + Pow2(m - 8) * Value(ByteOf(ws, i))
  {
    hide Flat, ByteOf, Value;
    var m := 8 * (4 * |ws| - i);
    var f := Flat(ws)[..m];
    FlatByte(ws, i);
    assert f[..m - 8] == Flat(ws)[..m - 8] && f[m - 8..] == ByteOf(ws, i);
    SplitValue(f, m - 8);
    ValueBelow(f[..m - 8]);
  }

  /** Byte by byte from the front is the order of the numbers. */
  lemma {:induction false} ByteOrderIsOrder(a: Words, b: Words, i: nat)
    requires |a| == |b| && i <= 4 * |a|
    ensures var m := 8 * (4 * |a| - i);
      SameSign(ByteOrder(a, b, i), Value(Flat(a)[..m]) - Value(Flat(b)[..m]))
    decreases 4 * |a| - i
  {
    hide Flat, ByteOf, Value, Pow2;
    if i < 4 * |a| {
      var m := 8 * (4 * |a| - i);
      var x, y := ByteOf(a, i), ByteOf(b, i);
      ByteOrderIsOrder(a, b, i + 1);
      ByteSplit(a, i);
      ByteSplit(b, i);
      if x != y {
        if Value(x) == Value(y) {
          ValueInjective(x, y);
        }
        TopDigit(Pow2(m - 8), Value(x), Value(y), Value(Flat(a)[..m - 8]), Value(Flat(b)[..m - 8]));
      }
    }
  }

  lemma OrderIsNumber(a: Words, b: Words)
    requires |a| == |b|
    ensures SameSign(ByteOrder(a, b, 0), Number(a) - Number(b)) && (ByteOrder(a, b, 0) == 0 <==> a == b)
  {
    hide Flat, ByteOrder;
    ByteOrderIsOrder(a, b, 0);
    assert Flat(a)[..32 * |a|] == Flat(a) && Flat(b)[..32 * |a|] == Flat(b);
    if Number(a) == Number(b) {
      ValueInjective(Flat(a), Flat(b));
      FlatInjective(a, b);
    }
  }

  // ---- Increment --------------------------------------------------------

  /** One more, with the carry going from the last word to the first. */
  function IncWords(ws: Words): (r: Words)
    ensures |r| == |ws|
  {
    if ws == [] then []
    else
      var rest := IncWords(ws[1..]);
      [if AllZero(Flat(rest)) then Inc(ws[0]) else ws[0]] + rest
  }

  lemma {:induction false} IncWordsFlat(ws: Words)
    ensures Flat(IncWords(ws)) == Inc(Flat(ws))
  {
    if ws != [] {
      IncWordsFlat(ws[1..]);
      IncConcat(Flat(ws[1..]), ws[0]);
      assert IncWords(ws)[1..] == IncWords(ws[1..]);
    }
  }

  /** addr_increment adds one modulo 2^32 or 2^128. */
  lemma IncrementAddsOne(ws: Words)
    ensures Number(IncWords(ws)) == if Number(ws) + 1 < Pow2(32 * |ws|) then Number(ws) + 1 else 0
  {
    IncWordsFlat(ws);
    IncValue(Flat(ws));
  }

  function Steps(ws: Words, n: nat): (r: Words)
    ensures |r| == |ws|
  {
    if n == 0 then ws else IncWords(Steps(ws, n - 1))
  }

  lemma {:induction false} StepsNumber(ws: Words, n: nat)
    requires Number(ws) + n < Pow2(32 * |ws|)
    ensures Number(Steps(ws, n)) == Number(ws) + n
  {
    if n > 0 {
      StepsNumber(ws, n - 1);
      IncrementAddsOne(Steps(ws, n - 1));
    }
  }

  /** Repeated increments from one address to another visit every address between them, each at exactly
      one step. */
  lemma WalkVisitsOnce(from: Words, to: Words, x: Words, n: nat)
    requires |from| == |to| == |x| && Number(from) + n <= Number(to)
    ensures Steps(from, n) == x <==> Number(from) <= Number(x) <= Number(to) && n == Number(x) - Number(from)
  {
    ValueBelow(Flat(to));
    StepsNumber(from, n);
    if Number(Steps(from, n)) == Number(x) {
      ValueInjective(Flat(Steps(from, n)), Flat(x));
      FlatInjective(Steps(from, n), x);
    }
  }

  lemma IncUpper(w: word, rest: Words)
    requires !AllZero(Flat(IncWords(rest)))
    ensures IncWords([w] + rest) == [w] + IncWords(rest) && !AllZero(Flat(IncWords([w] + rest)))
  {
    var r := IncWords(rest);
    assert ([w] + rest)[1..] == rest && ([w] + r)[1..] == r;
    ZeroConcat(Flat(r), w);
  }

  /** The carry loop stops at the first word that does not wrap; the words before it stay. */
  lemma {:induction false} CarryStops(ws: Words, i: nat)
    requires i <= |ws| && !AllZero(Flat(IncWords(ws[i..])))
    ensures IncWords(ws) == ws[..i] + IncWords(ws[i..])
    decreases i
  {
    hide IncWords, Flat, AllZero;
    if i > 0 {
      assert ws[i - 1..] == [ws[i - 1]] + ws[i..];
      IncUpper(ws[i - 1], ws[i..]);
      CarryStops(ws, i - 1);
      assert ws[..i - 1] + ([ws[i - 1]] + IncWords(ws[i..])) == ws[..i] + IncWords(ws[i..]);
    } else {
      assert ws[0..] == ws && ws[..0] + IncWords(ws) == IncWords(ws);
    }
  }

  lemma {:induction false} ZeroConcat(a: Bits, b: Bits)
    ensures AllZero(Concat(a, b)) <==> AllZero(a) && AllZero(b)
  {
    if a == [] {
      assert a + b == b;
    } else {
      assert (a + b)[1..] == a[1..] + b;
      ZeroConcat(a[1..], b);
    }
  }

  lemma {:induction false} ZeroWord(w: Bits)
    ensures AllZero(w) <==> forall i :: 0 <= i < |w| ==> !w[i]
  {
    if w != [] {
      ZeroWord(w[1..]);
      assert forall i :: 0 < i < |w| ==> w[i] == w[1..][i - 1];
    }
  }

  /** A word with its `l` leading bits one. */
  function WordMask(l: nat): word { seq(32, b => b + l >= 32) }

  lemma MaskWords(n: nat, l: nat)
    ensures forall j :: 0 <= j < n ==>
      Mask(n, l)[j] == if 32 * (j + 1) <= l then ONES else if l <= 32 * j then ZERO_WORD else WordMask(l - 32 * j)
  {
  }

  lemma IncNoWords()
    ensures IncWords([]) == [] && AllZero(Flat([]))
  {
  }

  /** One turn of the carry loop. */
  lemma CarryStep(ws: Words, i: nat, rest: Words, n: word)
    requires i < |ws| && rest == IncWords(ws[i + 1..]) && AllZero(Flat(rest)) && n == Inc(ws[i])
    ensures IncWords(ws[i..]) == [n] + rest
    ensures AllZero(Flat([n] + rest)) <==> n == ZERO_WORD
  {
    assert ws[i..][1..] == ws[i + 1..] && ([n] + rest)[1..] == rest;
    ZeroConcat(Flat(rest), n);
    ZeroWord(n);
  }

  // ---- struct xaddr -----------------------------------------------------

  datatype Family = Inet | Inet6

  /** How many words an address of a family has. */
  function Size(af: Family): nat { if af == Inet then 1 else 4 }

  class Xaddr {
    var af: Family
    var words: Words
    var scope: nat

    predicate Valid()
      reads this
    {
      |words| == Size(af)
    }

    constructor (af: Family, words: Words, scope: nat)
      requires |words| == Size(af)
      ensures Valid() && this.af == af && this.words == words && this.scope == scope
    {
      this.af, this.words, this.scope := af, words, scope;
    }

    /** addr_netmask. */
    method Netmask(af: Family, l: nat) returns (ok: bool)
      modifies this
      ensures ok == (l <= 32 * Size(af))
      ensures ok ==> Valid() && this.af == af && scope == 0 && words == Mask(Size(af), l)
    {
      if l > 32 * Size(af) {
        return false;
      }
      this.af, words, scope := af, seq(Size(af), _ => ZERO_WORD), 0;
      if af == Inet {
        if l != 0 {
          words := words[0 := WordMask(l)];
        }
        MaskWords(1, l);
        assert WordMask(32) == ONES && words == Mask(1, l);
        return true;
      }
      var i, rest := 0, l;
      while i < 4 && rest >= 32
        modifies this`words
        invariant 0 <= i <= 4 && rest == l - 32 * i && |words| == 4
        invariant forall j :: 0 <= j < i ==> words[j] == ONES
        invariant forall j :: i <= j < 4 ==> words[j] == ZERO_WORD
      {
        words := words[i := ONES];
        i, rest := i + 1, rest - 32;
      }
      if i < 4 && rest != 0 {
        words := words[i := WordMask(rest)];
      }
      MaskWords(4, l);
      assert words == Mask(4, l);
      return true;
    }

    /** addr_invert. */
    method Invert()
      requires Valid()
      modifies this`words
      ensures Valid() && words == Not(old(words))
    {
      var i := 0;
      while i < |words|
        invariant 0 <= i <= |words| == |old(words)|
        invariant forall j :: 0 <= j < i ==> words[j] == NotWord(old(words)[j])
        invariant forall j :: i <= j < |words| ==> words[j] == old(words)[j]
      {
        words := words[i := NotWord(words[i])];
        i := i + 1;
      }
    }

    /** addr_and and addr_or, into a copy of `a`; a second operand that is the destination is overwritten by that
        copy before it is used. */
    method Combine(a: Xaddr, b: Xaddr, or: bool) returns (ok: bool)
      requires a.Valid() && b.Valid()
      modifies this
      ensures ok == (old(a.af) == old(b.af))
      ensures ok ==> Valid() && af == old(a.af) && scope == old(a.scope)
      ensures ok && b != this ==> words == if or then Or(old(a.words), b.words) else And(old(a.words), b.words)
      ensures ok && b == this ==> words == old(a.words)
    {
      if a.af != b.af {
        return false;
      }
      af, words, scope := a.af, a.words, a.scope;
      ghost var start, other := words, b.words;
      var i := 0;
      while i < |words|
        modifies this`words
        invariant 0 <= i <= |words| == |start| == |other|
        invariant b != this ==> b.words == other
        invariant forall j :: 0 <= j < i ==>
          words[j] == if or then OrWord(start[j], other[j]) else AndWord(start[j], other[j])
        invariant forall j :: i <= j < |words| ==> words[j] == start[j]
      {
        words := words[i := if or then OrWord(words[i], b.words[i]) else AndWord(words[i], b.words[i])];
        i := i + 1;
      }
      if b == this {
        forall j | 0 <= j < |start| ensures words[j] == start[j] {
          WithItself(start[j]);
        }
      }
      return true;
    }

    /** addr_increment. */
    method Increment()
      requires Valid()
      modifies this`words
      ensures Valid() && words == IncWords(old(words))
    {
      hide Flat, IncWords, Inc;
      ghost var start := words;
      IncNoWords();
      var i := |words|;
      while i > 0
        invariant 0 <= i <= |words| == |start| && words[..i] == start[..i]
        invariant words[i..] == IncWords(start[i..]) && AllZero(Flat(words[i..]))
      {
        i := i - 1;
        var n := Inc(words[i]);
        CarryStep(start, i, words[i + 1..], n);
        words := words[i := n];
        assert words[i..] == [n] + words[i + 1..];
        if n != ZERO_WORD {
          CarryStops(start, i);
          assert words == words[..i] + words[i..];
          return;
        }
      }
      assert start[0..] == start && words[0..] == words;
    }

    /** addr_cmp. */
    method Cmp(b: Xaddr) returns (r: int)
      requires Valid() && b.Valid()
      ensures r == Compare(af, words, scope, b.af, b.words, b.scope)
    {
      if af != b.af {
        return if af == Inet6 then 1 else -1;
      }
      if af == Inet {
        if words[0] == b.words[0] {
          return 0;
        }
        return if Value(words[0]) > Value(b.words[0]) then 1 else -1;
      }
      var i := 0;
      while i < 16
        invariant 0 <= i <= 16 && ByteOrder(words, b.words, 0) == ByteOrder(words, b.words, i)
      {
        if ByteOf(words, i) != ByteOf(b.words, i) {
          DifferentBytes(ByteOf(words, i), ByteOf(b.words, i));
          return Value(ByteOf(words, i)) - Value(ByteOf(b.words, i));
        }
        i := i + 1;
      }
      return if scope == b.scope then 0 else if scope > b.scope then 1 else -1;
    }

    /** addr_is_all0s. */
    method IsAll0s() returns (zero: bool)
      requires Valid()
      ensures zero == (words == seq(|words|, _ => ZERO_WORD))
    {
      var i := 0;
      while i < |words|
        invariant 0 <= i <= |words| && forall j :: 0 <= j < i ==> words[j] == ZERO_WORD
      {
        if words[i] != ZERO_WORD {
          return false;
        }
        i := i + 1;
      }
      return true;
    }

    /** addr_hostmask. */
    method Hostmask(af: Family, l: nat) returns (ok: bool)
      modifies this
      ensures ok == (l <= 32 * Size(af))
      ensures ok ==> Valid() && this.af == af && words == Not(Mask(Size(af), l))
    {
      ok := Netmask(af, l);
      if ok {
        Invert();
      }
    }

    /** addr_host_is_all0s. */
    method HostIsAll0s(l: nat) returns (zero: bool)
      requires Valid()
      ensures zero == (l <= 32 * Size(af) && HostIsZero(words, l))
    {
      var mask := new Xaddr(af, words, scope);
      var ok := mask.Hostmask(af, l);
      if !ok {
        return false;
      }
      var result := new Xaddr(af, words, scope);
      ok := result.Combine(this, mask, false);
      zero := result.IsAll0s();
    }

    /** addr_host_to_all1s. */
    method HostToAll1s(l: nat) returns (ok: bool)
      requires Valid()
      modifies this
      ensures ok == (l <= 32 * Size(old(af)))
      ensures ok ==> Valid() && af == old(af) && scope == old(scope)
      ensures ok ==> words == Or(old(words), Not(Mask(|old(words)|, l)))
    {
      var mask := new Xaddr(af, words, scope);
      ok := mask.Hostmask(af, l);
      if ok {
        ok := Combine(this, mask, true);
      }
    }

    /** addr_netmatch of this host. */
    method Netmatch(net: Xaddr, l: nat) returns (r: int)
      requires Valid() && net.Valid()
      ensures r == NetmatchResult(af, words, scope, net.af, net.words, net.scope, l)
    {
      if af != net.af {
        return -1;
      }
      var mask := new Xaddr(af, words, scope);
      var ok := mask.Netmask(af, l);
      if !ok {
        return -1;
      }
      var result := new Xaddr(af, words, scope);
      ok := result.Combine(this, mask, false);
      r := result.Cmp(net);
    }
  }

  lemma DifferentBytes(a: byte, b: byte)
    requires a != b
    ensures Value(a) != Value(b)
  {
    if Value(a) == Value(b) {
      ValueInjective(a, b);
    }
  }

  /** The answer of addr_cmp. */
  function Compare(af: Family, a: Words, scope: nat, bf: Family, b: Words, bscope: nat): int
    requires |a| == Size(af) && |b| == Size(bf)
  {
    if af != bf then if af == Inet6 then 1 else -1
    else if af == Inet then if a[0] == b[0] then 0 else if Value(a[0]) > Value(b[0]) then 1 else -1
    else if ByteOrder(a, b, 0) != 0 then ByteOrder(a, b, 0)
    else if scope == bscope then 0 else if scope > bscope then 1 else -1
  }

  /** The answer of addr_netmatch. */
  function NetmatchResult(af: Family, host: Words, scope: nat, nf: Family, net: Words, nscope: nat, l: nat): int
    requires |host| == Size(af) && |net| == Size(nf)
  {
    if af != nf || l > 32 * Size(af) then -1
    else Compare(af, And(host, Mask(|host|, l)), scope, nf, net, nscope)
  }

  /** addr_cmp orders addresses of one family and scope as numbers. */
  lemma CompareIsOrder(af: Family, a: Words, b: Words, scope: nat)
    requires |a| == |b| == Size(af)
    ensures var r := Compare(af, a, scope, af, b, scope);
      SameSign(r, Number(a) - Number(b)) && (r == 0 <==> a == b)
  {
    if af == Inet {
      SingleWord(a);
      SingleWord(b);
      if a[0] != b[0] && Value(a[0]) == Value(b[0]) {
        ValueInjective(a[0], b[0]);
      }
    } else {
      OrderIsNumber(a, b);
    }
  }

  lemma SingleWord(a: Words)
    requires |a| == 1
    ensures Number(a) == Value(a[0])
  {
    assert Flat(a[1..]) == [] && Concat([], a[0]) == a[0];
  }

  /** For a host and a prefix of one family and scope, the prefix with zero host bits, addr_netmatch answers 0 exactly
      when the host lies, in addr_cmp order, between the network and the network with its host bits set. */
  lemma NetmatchIsRange(af: Family, host: Words, net: Words, scope: nat, l: nat)
    requires |host| == |net| == Size(af) && l <= 32 * Size(af) && HostIsZero(net, l)
    ensures NetmatchResult(af, host, scope, af, net, scope, l) == 0 <==>
      var top := Or(net, Not(Mask(|net|, l)));
      Compare(af, net, scope, af, host, scope) <= 0 && Compare(af, host, scope, af, top, scope) <= 0
  {
    hide Compare, And, Or, Not, Mask, Number, HostIsZero;
    var top := Or(net, Not(Mask(|net|, l)));
    MatchIsRange(host, net, l);
    CompareIsOrder(af, And(host, Mask(|host|, l)), net, scope);
    CompareIsOrder(af, net, host, scope);
    CompareIsOrder(af, host, top, scope);
  }
}
