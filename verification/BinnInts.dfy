/** Integers in binn values: compression to the shortest type on writing, conversion on reading. */
module BinnInts {
  import opened Octets
  import opened Options
  import opened BinnFormat

  const UINT8: nat := 0x20
  const INT8: nat := 0x21
  const UINT16: nat := 0x40
  const INT16: nat := 0x41
  const UINT32: nat := 0x60
  const INT32: nat := 0x61
  const UINT64: nat := 0x80
  const INT64: nat := 0x81

  predicate IsInt(typ: nat) { typ in {UINT8, INT8, UINT16, INT16, UINT32, INT32, UINT64, INT64} }

  predicate IsSigned(typ: nat) { typ % 2 == 1 }

  /** The number of values of a type. */
  function Span(typ: nat): nat {
    if typ < 0x40 then 0x100 else if typ < 0x60 then 0x1_0000 else if typ < 0x80 then 0x1_0000_0000
    else 0x1_0000_0000_0000_0000
  }

  predicate InRange(typ: nat, n: int) {
    if IsSigned(typ) then 0 <= n + Span(typ) / 2 < Span(typ) else 0 <= n < Span(typ)
  }

  function IntWidth(typ: nat): nat { if typ < 0x40 then 1 else if typ < 0x60 then 2 else if typ < 0x80 then 4 else 8 }

  /** The bytes stored for a number: its two's complement. */
  function Payload(typ: nat, n: int): Bytes { BE(n % Span(typ), IntWidth(typ)) }

  function FromPayload(typ: nat, b: Bytes): int {
    var n := FromBE(b);
    if IsSigned(typ) && n >= Span(typ) / 2 then n - Span(typ) else n
  }

  /** compress_int: the type the number is stored as. */
  function Compress(typ: nat, n: int): nat {
    if IntWidth(typ) == 1 then typ
    else if n < 0 then if n >= -0x80 then INT8 else if n >= -0x8000 then INT16 else if n >= -0x8000_0000 then INT32 else typ
    else if n <= 0xFF then UINT8 else if n <= 0xFFFF then UINT16 else if n <= 0xFFFF_FFFF then UINT32 else typ
  }

  /** copy_int_value: conversion of a number read as `source` into `dest`. */
  function CopyInt(source: nat, n: int, dest: nat): Option<int> {
    if !IsInt(source) || !IsInt(dest) then None
    else if !IsSigned(source) && IsSigned(dest) && n > 0x7FFF_FFFF_FFFF_FFFF then None
    else if IsSigned(source) && !IsSigned(dest) && n < 0 then None
    else
      match dest
      case 0x21 => if n < -0x80 || n > 0x7F then None else Some(n)
      case 0x41 => if n < -0x8000 || n > 0x7FFF then None else Some(n)
      case 0x61 => if n < -0x8000_0000 || n > 0x7FFF_FFFF then None else Some(n)
      case 0x20 => if n > 0xFF then None else Some(n)
      case 0x40 => if n > 0xFFFF then None else Some(n)
      case 0x60 => if n > 0xFFFF_FFFF then None else Some(n)
      case _ => Some(n)
  }

  /** A conversion succeeds exactly when the target can hold the number, and then keeps it. */
  lemma CopyIntExact(source: nat, n: int, dest: nat)
    requires IsInt(source) && IsInt(dest) && InRange(source, n)
    ensures CopyInt(source, n, dest) == if InRange(dest, n) then Some(n) else None
  {
  }

  lemma PayloadBack(typ: nat, n: int)
    requires IsInt(typ) && InRange(typ, n)
    ensures |Payload(typ, n)| == IntWidth(typ) && FromPayload(typ, Payload(typ, n)) == n
  {
    hide BE, FromBE;
    WidthSpan(typ);
    ReadBack(n % Span(typ), IntWidth(typ));
    Residue(n, Span(typ));
  }

  lemma WidthSpan(typ: nat)
    ensures Pow256(IntWidth(typ)) == Span(typ)
  {
    Widths();
  }

  lemma Residue(n: int, span: int)
    requires span > 0 && -span <= n < span
    ensures n % span == if n < 0 then n + span else n
  {
  }

  /** Compression chooses an integer type that holds the number and never widens it; no narrower type
      of the same signedness would do; and reading gives the number back in the type it was added as. */
  lemma CompressionKeepsValue(typ: nat, n: int)
    requires IsInt(typ) && InRange(typ, n)
    ensures var t := Compress(typ, n);
      && IsInt(t) && InRange(t, n) && IntWidth(t) <= IntWidth(typ)
      && (IntWidth(t) > 1 ==> !InRange(t - 0x20, n))
      && FromPayload(t, Payload(t, n)) == n
      && CopyInt(t, FromPayload(t, Payload(t, n)), typ) == Some(n)
  {
    var t := Compress(typ, n);
    CompressedFits(typ, n);
    PayloadBack(t, n);
    CopyIntExact(t, n, typ);
  }

  lemma CompressedFits(typ: nat, n: int)
    requires IsInt(typ) && InRange(typ, n)
    ensures var t := Compress(typ, n);
      IsInt(t) && InRange(t, n) && IntWidth(t) <= IntWidth(typ) && (IntWidth(t) > 1 ==> !InRange(t - 0x20, n))
  {
  }

  /** The value binn stores for an integer, compressed or not. */
  function IntValue(typ: nat, n: int, compress: bool): Value {
    var t := if compress then Compress(typ, n) else typ;
    Scalar(t, Payload(t, n))
  }

  lemma IntValueGood(typ: nat, n: int, compress: bool)
    requires IsInt(typ) && InRange(typ, n)
    ensures GoodValue(IntValue(typ, n, compress))
  {
    CompressedFits(typ, n);
  }

  predicate IsIntValue(v: Value) { v.Scalar? && IsInt(v.typ) }

  /** What AddValue stores for a value: a number in its compressed form unless compression is off, others as
      they are. */
  function Stored(v: Value, compress: bool): Value {
    if IsIntValue(v) && compress then IntValue(v.typ, FromPayload(v.typ, v.payload), true) else v
  }

  /** Every payload of the type's width is that of a number in range. */
  lemma NumberOf(typ: nat, b: Bytes)
    requires IsInt(typ) && |b| == IntWidth(typ)
    ensures InRange(typ, FromPayload(typ, b)) && Payload(typ, FromPayload(typ, b)) == b
  {
    hide BE, FromBE;
    WidthSpan(typ);
    WriteBack(b);
    Residue(FromPayload(typ, b), Span(typ));
  }

  lemma IntWidthIsWidth(typ: nat)
    requires IsInt(typ)
    ensures GoodType(typ) && Storage(TypeByte(typ)) <= 4 && Width(Storage(TypeByte(typ))) == IntWidth(typ)
  {
  }

  lemma StoredGood(v: Value, compress: bool)
    requires GoodValue(v)
    ensures GoodValue(Stored(v, compress))
  {
    hide IntValue, InRange, FromPayload, Payload;
    if IsIntValue(v) && compress {
      IntWidthIsWidth(v.typ);
      NumberOf(v.typ, v.payload);
      IntValueGood(v.typ, FromPayload(v.typ, v.payload), true);
    }
  }

  /** A number given to AddValue in its type is stored as that number, in the shortest form if compression is on. */
  lemma StoredInt(typ: nat, n: int, compress: bool)
    requires IsInt(typ) && InRange(typ, n)
    ensures GoodValue(Scalar(typ, Payload(typ, n)))
    ensures Stored(Scalar(typ, Payload(typ, n)), compress) == IntValue(typ, n, compress)
  {
    hide InRange, FromPayload, Payload, Compress;
    IntWidthIsWidth(typ);
    PayloadBack(typ, n);
  }
}
