/**
 Machine words as lists of bits, least significant bit first. The bitwise
 operators and the rotations act position by position, addition ripples a
 carry, and `Value` gives the unsigned number a word stands for.
 */
module Bits {

  type Bits = seq<bool>
  type byte = b: Bits | |b| == 8 witness seq(8, _ => false)
  type word = w: Bits | |w| == 32 witness seq(32, _ => false)

  function Pow2(n: nat): nat {
    if n == 0 then 1 else 2 * Pow2(n - 1)
  }

  function Zero(n: nat): (r: Bits)
    ensures |r| == n
  {
    seq(n, _ => false)
  }

  /** The double word with low half `lo` and high half `hi`. */
  function Concat(lo: Bits, hi: Bits): (r: Bits)
    ensures |r| == |lo| + |hi|
  {
    lo + hi
  }

  function BitValue(b: bool): nat {
    if b then 1 else 0
  }

  function Value(a: Bits): nat {
    if a == [] then 0 else BitValue(a[0]) + 2 * Value(a[1..])
  }

  function Xor(a: Bits, b: Bits): (r: Bits)
    requires |a| == |b|
    ensures |r| == |a|
  {
    seq(|a|, i requires 0 <= i < |a| => a[i] != b[i])
  }

  /** Sum with carry-in, dropping the carry out of the top bit. */
  function Add(a: Bits, b: Bits, carry: bool): (r: Bits)
    requires |a| == |b|
    ensures |r| == |a|
  {
    if a == [] then []
    else
      [(a[0] != b[0]) != carry] + Add(a[1..], b[1..], Majority(a[0], b[0], carry))
  }

  predicate Majority(x: bool, y: bool, z: bool) {
    (x && y) || (x && z) || (y && z)
  }

  function Rotl(w: word, n: nat): word
    requires n <= 32
  {
    w[32 - n..] + w[..32 - n]
  }

  // ---- Exclusive or -----------------------------------------------------

  lemma XorTwice(a: Bits, b: Bits)
    requires |a| == |b|
    ensures Xor(Xor(a, b), b) == a
    ensures Xor(a, b) == Xor(b, a)
  {
  }

  lemma XorZero(a: Bits)
    ensures Xor(Zero(|a|), a) == a && Xor(a, Zero(|a|)) == a
  {
  }

  // ---- Values -----------------------------------------------------------

  lemma {:induction false} ValueBelow(a: Bits)
    ensures Value(a) < Pow2(|a|)
  {
    if a != [] {
      ValueBelow(a[1..]);
    }
  }

  lemma {:induction false} ValueInjective(a: Bits, b: Bits)
    requires |a| == |b| && Value(a) == Value(b)
    ensures a == b
  {
    if a != [] {
      ValueInjective(a[1..], b[1..]);
      assert a == [a[0]] + a[1..] && b == [b[0]] + b[1..];
    }
  }

  lemma {:induction false} ValueConcat(a: Bits, b: Bits)
    ensures Value(Concat(a, b)) == Value(a) + Pow2(|a|) * Value(b)
  {
    if a == [] {
      assert a + b == b;
    } else {
      ValueConcat(a[1..], b);
      assert (a + b)[1..] == a[1..] + b;
      DoubleProduct(Pow2(|a| - 1), Value(b));
    }
  }

  lemma DoubleProduct(p: nat, v: nat)
    ensures (2 * p) * v == 2 * (p * v)
  {
  }

  /** Ripple-carry addition is addition modulo 2^n. */
  lemma {:induction false} AddValue(a: Bits, b: Bits, carry: bool)
    requires |a| == |b|
    ensures var s := Value(a) + Value(b) + BitValue(carry);
            Value(Add(a, b, carry)) == if s < Pow2(|a|) then s else s - Pow2(|a|)
  {
    if a != [] {
      var bit, up := (a[0] != b[0]) != carry, Majority(a[0], b[0], carry);
      var rest := Add(a[1..], b[1..], up);
      AddValue(a[1..], b[1..], up);
      assert ([bit] + rest)[1..] == rest;
    }
  }

  /** The `n` low bits of a number. */
  function FromValue(v: nat, n: nat): (r: Bits)
    ensures |r| == n
  {
    if n == 0 then [] else [v % 2 == 1] + FromValue(v / 2, n - 1)
  }

  lemma {:induction false} FromValueOfValue(a: Bits)
    ensures FromValue(Value(a), |a|) == a
  {
    if a != [] {
      FromValueOfValue(a[1..]);
      assert a == [a[0]] + a[1..];
    }
  }

  lemma {:induction false} ValueOfFromValue(v: nat, n: nat)
    requires v < Pow2(n)
    ensures Value(FromValue(v, n)) == v
  {
    if n > 0 {
      ValueOfFromValue(v / 2, n - 1);
      assert FromValue(v, n)[1..] == FromValue(v / 2, n - 1);
    }
  }

  lemma {:induction false} FromValueOfZero(n: nat)
    ensures FromValue(0, n) == Zero(n)
  {
    if n > 0 {
      FromValueOfZero(n - 1);
      assert Zero(n) == [false] + Zero(n - 1);
    }
  }

  lemma {:induction false} Pow2Adds(m: nat, n: nat)
    ensures Pow2(m + n) == Pow2(m) * Pow2(n)
  {
    if n > 0 {
      Pow2Adds(m, n - 1);
    }
  }

  lemma Pow2Of32()
    ensures Pow2(8) == 0x100 && Pow2(16) == 0x1_0000 && Pow2(32) == 0x1_0000_0000
  {
    Pow2Adds(4, 4);
    Pow2Adds(8, 8);
    Pow2Adds(16, 16);
  }

  lemma Pow2Of64()
    ensures Pow2(64) == 0x1_0000_0000_0000_0000
  {
    Pow2Of32();
    Pow2Adds(32, 32);
  }

  // ---- Increment --------------------------------------------------------

  /** Addition of one, wrapping around to zero. */
  function Inc(a: Bits): (r: Bits)
    ensures |r| == |a|
  {
    if a == [] then []
    else if a[0] then [false] + Inc(a[1..])
    else [true] + a[1..]
  }

  lemma {:induction false} IncValue(a: Bits)
    ensures Value(Inc(a)) == if Value(a) + 1 < Pow2(|a|) then Value(a) + 1 else 0
  {
    if a != [] {
      var rest := a[1..];
      if a[0] {
        IncValue(rest);
        assert ([false] + Inc(rest))[1..] == Inc(rest);
      } else {
        ValueBelow(rest);
        assert ([true] + rest)[1..] == rest;
      }
    }
  }

  predicate AllZero(a: Bits) {
    a == [] || (!a[0] && AllZero(a[1..]))
  }

  predicate AllOnes(a: Bits) {
    a == [] || (a[0] && AllOnes(a[1..]))
  }

  lemma Uncons(a: Bits, b: Bits)
    requires a != []
    ensures a == [a[0]] + a[1..] && a + b == [a[0]] + (a[1..] + b)
  {
  }

  lemma Regroup(bit: bool, a: Bits, b: Bits)
    ensures [bit] + (a + b) == ([bit] + a) + b
  {
  }

  lemma IncNothing()
    ensures Inc([]) == [] && AllZero([]) && AllOnes([])
  {
  }

  lemma IncFirst(bit: bool, rest: Bits)
    ensures Inc([bit] + rest) == if bit then [false] + Inc(rest) else [true] + rest
    ensures AllZero([bit] + rest) <==> !bit && AllZero(rest)
    ensures AllOnes([bit] + rest) <==> bit && AllOnes(rest)
  {
    assert ([bit] + rest)[1..] == rest;
  }

  lemma {:induction false} IncWraps(lo: Bits, hi: Bits)
    requires AllOnes(lo)
    ensures AllZero(Inc(lo)) && Inc(lo + hi) == Inc(lo) + Inc(hi)
  {
    hide Inc, AllZero, AllOnes;
    if lo == [] {
      IncNothing();
      assert lo + hi == hi && [] + Inc(hi) == Inc(hi);
    } else {
      var rest := lo[1..];
      Uncons(lo, hi);
      IncFirst(lo[0], rest);
      IncFirst(lo[0], rest + hi);
      IncFirst(false, Inc(rest));
      IncWraps(rest, hi);
      Regroup(false, Inc(rest), Inc(hi));
    }
  }

  lemma {:induction false} IncStays(lo: Bits, hi: Bits)
    requires !AllOnes(lo)
    ensures !AllZero(Inc(lo)) && Inc(lo + hi) == Inc(lo) + hi
  {
    hide Inc, AllZero, AllOnes;
    IncNothing();
    var bit, rest := lo[0], lo[1..];
    Uncons(lo, hi);
    IncFirst(bit, rest);
    IncFirst(bit, rest + hi);
    if bit {
      IncStays(rest, hi);
      IncFirst(false, Inc(rest));
      Regroup(false, Inc(rest), hi);
    } else {
      IncFirst(true, rest);
      Regroup(true, rest, hi);
    }
  }

  /** Incrementing two words with a carry is incrementing the double word. */
  lemma IncConcat(lo: Bits, hi: Bits)
    ensures Inc(Concat(lo, hi)) == Concat(Inc(lo), if AllZero(Inc(lo)) then Inc(hi) else hi)
  {
    if AllOnes(lo) {
      IncWraps(lo, hi);
    } else {
      IncStays(lo, hi);
    }
  }
}
