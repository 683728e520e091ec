/**
 The byte format of binn containers: what lists, maps and objects mean, and the
 bytes binn.c writes for them.
 */
module BinnFormat {
  import opened Octets

  datatype Kind = List | Map | Object

  datatype Key = NoKey | Id(id: int) | Name(name: Bytes)

  /** A stored value with its type code; a container is stored as its own bytes. */
  datatype Value =
    | Scalar(typ: nat, payload: Bytes)
    | Text(typ: nat, text: Bytes)
    | Blob(typ: nat, blob: Bytes)
    | Sub(c: Container)

  datatype Item = Item(key: Key, v: Value)

  datatype Container = Container(kind: Kind, items: seq<Item>)

  // Storage classes: the top three bits of a type byte.
  const STRING: nat := 5
  const BLOB: nat := 6
  const CONTAINER: nat := 7

  const INT_MIN: int := -0x8000_0000
  const TOP_BIT: nat := 0x8000_0000

  function Storage(b: byte): nat { b / 32 }

  predicate HasMore(b: byte) { b / 16 % 2 == 1 }

  /** Payload bytes of the fixed-size storage classes. */
  function Width(storage: nat): nat {
    match storage
    case 1 => 1
    case 2 => 2
    case 3 => 4
    case 4 => 8
    case _ => 0
  }

  function KindByte(k: Kind): byte {
    match k
    case List => 0xE0
    case Map => 0xE1
    case Object => 0xE2
  }

  /** The first byte of a type code of one or two bytes. */
  function TypeByte(typ: nat): byte { if typ > 255 then typ / 256 % 256 else typ }

  function TypeBytes(typ: nat): Bytes { if typ > 255 then BE(typ, 2) else BE(typ, 1) }

  predicate GoodType(typ: nat) { typ < 0x10000 && (typ > 255 <==> HasMore(TypeByte(typ))) }

  // ---- Encoding ---------------------------------------------------------

  /** A size or count: one byte up to 127, else four with the top bit set. */
  function SizeBytes(n: nat): Bytes { if n > 127 then BE(n + TOP_BIT, 4) else BE(n, 1) }

  /** The first byte of an id: how many bytes follow, the sign, and the top four bits of the magnitude. */
  function LeadByte(top: byte, negative: bool, extra: nat): byte {
    (0x60 + extra * 32 + (if negative then 16 else 0) + top) % 256
  }

  function TaggedBytes(n: nat, negative: bool, extra: nat): Bytes {
    var b := BE(n, extra + 1);
    [LeadByte(b[0], negative, extra)] + b[1..]
  }

  /** The id of a map entry in one to five bytes. The negation of INT_MIN wraps to INT_MIN, which passes for a
      number of at most six bits and leaves only the sign. */
  function IdBytes(id: int): Bytes {
    var n := if id < 0 then -id else id;
    if id == INT_MIN then [0x40]
    else if n <= 0x3F then [(if id < 0 then 64 else 0) + n]
    else if n <= 0xFFF then TaggedBytes(n, id < 0, 1)
    else if n <= 0xFFFFF then TaggedBytes(n, id < 0, 2)
    else if n <= 0xFFF_FFFF then TaggedBytes(n, id < 0, 3)
    else [0xE0] + BE(id % 0x1_0000_0000, 4)
  }

  /** The key a reader sees: every key but INT_MIN, which is written as a negative zero. */
  function Heard(k: Key): Key { if k == Id(INT_MIN) then Id(0) else k }

  function KeyBytes(k: Key): Bytes {
    match k
    case NoKey => []
    case Id(id) => IdBytes(id)
    case Name(name) => BE(|name|, 1) + name
  }

  /** The size field counts the whole container, itself included. */
  function TotalSize(body: nat, count: nat): nat {
    var size := body + 3 + if count > 127 then 3 else 0;
    if size > 127 then size + 3 else size
  }

  function Header(kind: Kind, body: nat, count: nat): Bytes {
    [KindByte(kind)] + (SizeBytes(TotalSize(body, count)) + SizeBytes(count))
  }

  function ValueBytes(v: Value): Bytes
    decreases v, 0
  {
    match v
    case Scalar(typ, payload) => TypeBytes(typ) + payload
    case Text(typ, text) => TypeBytes(typ) + (SizeBytes(|text|) + (text + [0]))
    case Blob(typ, blob) => TypeBytes(typ) + (SizeBytes(|blob|) + blob)
    case Sub(c) => Encode(c)
  }

  function ItemBytes(item: Item): Bytes
    decreases item, 0
  {
    KeyBytes(item.key) + ValueBytes(item.v)
  }

  /** The first `n` items. */
  function Body(items: seq<Item>, n: nat): Bytes
    requires n <= |items|
    decreases items, n
  {
    if n == 0 then [] else Body(items, n - 1) + ItemBytes(items[n - 1])
  }

  /** A whole container. */
  function Encode(c: Container): Bytes
    decreases c, 0
  {
    var body := Body(c.items, |c.items|);
    Header(c.kind, |body|, |c.items|) + body
  }

  // ---- Well-formed contents ---------------------------------------------

  predicate GoodKey(kind: Kind, k: Key) {
    match kind
    case List => k.NoKey?
    case Map => k.Id? && INT_MIN <= k.id <= 0x7FFF_FFFF
    case Object => k.Name? && |k.name| <= 255
  }

  predicate GoodValue(v: Value)
    decreases v, 0
  {
    match v
    case Scalar(typ, payload) => GoodType(typ) && Storage(TypeByte(typ)) <= 4 && |payload| == Width(Storage(TypeByte(typ)))
    case Text(typ, text) => GoodType(typ) && Storage(TypeByte(typ)) == STRING && |text| < 0x4000_0000
    case Blob(typ, blob) => GoodType(typ) && Storage(TypeByte(typ)) == BLOB && |blob| < 0x4000_0000
    case Sub(c) => Good(c)
  }

  /** Contents the writers can produce, small enough for the 31-bit size fields. */
  predicate Good(c: Container)
    decreases c, 0
  {
    && |c.items| < 0x4000_0000 && |Encode(c)| < 0x4000_0000
    && forall i :: 0 <= i < |c.items| ==> GoodKey(c.kind, c.items[i].key) && GoodValue(c.items[i].v)
  }

  // ---- Sizes ------------------------------------------------------------

  lemma TypeBytesOf(typ: nat)
    requires GoodType(typ)
    ensures |TypeBytes(typ)| == (if HasMore(TypeByte(typ)) then 2 else 1)
    ensures TypeBytes(typ)[0] == TypeByte(typ)
    ensures HasMore(TypeByte(typ)) ==> TypeBytes(typ)[1] == typ % 256
  {
    assert BE(typ, 2) == BE(typ / 256, 1) + [typ % 256];
    assert forall n: nat :: BE(n, 1) == [n % 256];
  }

  lemma SizeBytesOf(n: nat)
    requires n < TOP_BIT
    ensures |SizeBytes(n)| == (if n > 127 then 4 else 1)
    ensures n <= 127 ==> SizeBytes(n)[0] == n
    ensures n > 127 ==> SizeBytes(n)[0] >= 128 && FromBE(SizeBytes(n)) == n + TOP_BIT
  {
    if n > 127 {
      Widths();
      ReadBack(n + TOP_BIT, 4);
      TopByte(n + TOP_BIT);
    }
  }

  lemma TopByte(n: nat)
    ensures BE(n, 4)[0] == n / 0x100_0000 % 256
  {
    assert BE(n, 4)[0] == BE(n / 256, 3)[0] == BE(n / 256 / 256, 2)[0] == BE(n / 256 / 256 / 256, 1)[0];
    assert n / 256 / 256 / 256 == n / 0x100_0000;
  }

  /** The size field of a container is its length. */
  lemma EncodeSize(c: Container)
    requires Good(c)
    ensures |Encode(c)| == TotalSize(|Body(c.items, |c.items|)|, |c.items|)
  {
    var body := |Body(c.items, |c.items|)|;
    SizeBytesOf(|c.items|);
    assert |SizeBytes(TotalSize(body, |c.items|))| == if TotalSize(body, |c.items|) > 127 then 4 else 1;
  }
}
