/**
 The readers of binn.c over a byte string: skipping values, searching keys, the
 validator, reading by position and by iterator. Positions stand for pointers;
 `limit` is one past the last byte of the container. Memory beyond the byte
 string is not modelled: a read there is a failure.
 */
module BinnReader {
  import opened Octets
  import opened Options
  import opened BinnFormat

  const MIN_BINN_SIZE: nat := 3
  const BINN_TRUE: nat := 1
  const BINN_FALSE: nat := 2
  const BINN_BOOL: nat := 0x80061

  /** A size field at `p`: its value and the position after it. */
  function ReadSize(data: Bytes, p: nat, limit: nat): (r: Option<(nat, nat)>)
    requires limit <= |data|
    ensures r.Some? ==> p < r.value.1 <= limit && r.value.0 < TOP_BIT
  {
    if p >= limit then None
    else if data[p] < 128 then Some((data[p], p + 1))
    else if p + 4 > limit then None
    else Some((FromBE(data[p..p + 4]) % TOP_BIT, p + 4))
  }

  /** AdvanceDataPos: the position after the value at `p`. */
  function Advance(data: Bytes, p: nat, limit: nat): (r: Option<nat>)
    requires limit <= |data|
    ensures r.Some? ==> p < limit && p <= r.value
  {
    if p >= limit then None
    else
      var storage, q := Storage(data[p]), p + if HasMore(data[p]) then 2 else 1;
      if storage <= 4 then Some(q + Width(storage))
      else
        match ReadSize(data, q, limit)
        case None => None
        case Some((n, after)) =>
          if storage == STRING then Some(after + n + 1)
          else if storage == BLOB then Some(after + n)
          else Some(q + n - 1)
  }

  /** read_map_id: the id and the position after it; a short id gives 0 and a position at or past the last byte. */
  function ReadMapId(data: Bytes, p: nat, limit: nat): (r: (int, nat))
    requires limit <= |data|
    ensures p <= r.1 && (p < limit ==> p < r.1)
  {
    if p >= limit then (0, p)
    else
      var c, q := data[p], p + 1;
      if c < 128 then (Signed(c % 64, c / 64 % 2 == 1), q)
      else if q + Extra(c) >= limit then (0, q + Extra(c))
      else (LongId(c, data[q..q + Extra(c)]), q + Extra(c))
  }

  /** A sign applied in 32-bit arithmetic, where INT_MIN is its own negation. */
  function Signed(n: int, negative: bool): int { if negative && n != INT_MIN then -n else n }

  function Signed32(n: nat): int { if n >= TOP_BIT then n - 0x1_0000_0000 else n }

  /** How many bytes follow the lead byte of an id of more than one byte. */
  function Extra(c: byte): nat { c / 32 % 4 + 1 }

  function LongId(c: byte, tail: Bytes): int {
    Signed(if |tail| < 4 then FromBE([c % 16] + tail) else Signed32(FromBE(tail)), c / 16 % 2 == 1)
  }

  datatype Head = Head(kind: Kind, count: nat, size: nat, headerSize: nat)

  /** IsValidBinnHeader at `p`, where at most `limit` may be read. */
  function ReadHead(data: Bytes, p: nat, limit: nat): (r: Option<Head>)
    requires limit <= |data|
    ensures r.Some? ==> MIN_BINN_SIZE <= r.value.headerSize && MIN_BINN_SIZE <= r.value.size && p < limit
  {
    if p + MIN_BINN_SIZE > limit || !(0xE0 <= data[p] <= 0xE2) then None
    else
      var kind := if data[p] == 0xE0 then List else if data[p] == 0xE1 then Map else Object;
      match ReadSize(data, p + 1, limit)
      case None => None
      case Some((size, q)) =>
        match ReadSize(data, q, limit)
        case None => None
        case Some((count, r)) => if size < MIN_BINN_SIZE then None else Some(Head(kind, count, size, r - p))
  }

  /** What GetValue hands back: the type, the bytes of the value, and the count of a container. */
  datatype Got = Got(typ: nat, data: Bytes, count: nat)

  function TwoBytes(high: int, low: int): int { high * 256 + low }

  /** GetValue. */
  function GetValue(data: Bytes, p: nat, limit: nat): Option<Got>
    requires limit <= |data|
  {
    if p >= limit || (HasMore(data[p]) && p + 1 >= limit) then None
    else
      var storage, q := Storage(data[p]), p + if HasMore(data[p]) then 2 else 1;
      var typ: nat := if HasMore(data[p]) then TwoBytes(data[p], data[p + 1]) else data[p];
      if storage <= 4 then
        if storage > 0 && q + Width(storage) > limit then None
        else if typ == BINN_TRUE then Some(Got(BINN_BOOL, [1], 0))
        else if typ == BINN_FALSE then Some(Got(BINN_BOOL, [0], 0))
        else Some(Got(typ, if storage == 0 then [] else data[q..q + Width(storage)], 0))
      else if storage < CONTAINER then
        match ReadSize(data, q, limit)
        case None => None
        case Some((n, after)) => if after + n > limit then None else Some(Got(typ, data[after..after + n], 0))
      else
        match ReadHead(data, p, |data|)
        case None => None
        case Some(h) => Some(Got(typ, data[p..if p + h.size <= |data| then p + h.size else |data|], h.count))
  }

  // ---- Loops ------------------------------------------------------------

  /** Skips a key of a pair; the position after it, which the callers compare with the limit. */
  function SkipKey(data: Bytes, kind: Kind, p: nat, limit: nat): (q: nat)
    requires limit <= |data|
    ensures p <= q
  {
    match kind
    case List => p
    case Map => ReadMapId(data, p, limit).1
    case Object => if p >= limit then p else p + 1 + data[p]
  }

  /** The position after `n` items, if each key leaves room for its value. */
  function Walk(data: Bytes, kind: Kind, p: nat, limit: nat, n: nat): Option<nat>
    requires limit <= |data|
    decreases n
  {
    if n == 0 then Some(p)
    else
      var v := SkipKey(data, kind, p, limit);
      if v >= limit then None
      else
        match Advance(data, v, limit)
        case None => None
        case Some(q) => Walk(data, kind, q, limit, n - 1)
  }

  /** binn_is_valid_ex2 for the container at `p`, with `limit - p` bytes informed. */
  function Validate(data: Bytes, p: nat, limit: nat): Option<Head>
    requires limit <= |data|
    decreases if p < limit then limit - p else 0, 0, 0
  {
    match ReadHead(data, p, limit)
    case None => None
    case Some(h) =>
      if p + h.size > limit then None
      else if ValidItems(data, h.kind, p + h.headerSize, p + h.size, h.count) then Some(h)
      else None
  }

  predicate ValidItems(data: Bytes, kind: Kind, p: nat, limit: nat, n: nat)
    requires limit <= |data|
    decreases if p < limit then limit - p else 0, 1, n
  {
    n == 0 ||
    var v := SkipKey(data, kind, p, limit);
    v < limit &&
    if Storage(data[v]) == CONTAINER then
      match Validate(data, v, limit)
      case None => false
      case Some(h) => ValidItems(data, kind, v + h.size, limit, n - 1)
    else
      match Advance(data, v, limit)
      case None => false
      case Some(q) => ValidItems(data, kind, q, limit, n - 1)
  }

  // ---- Reading what was written -----------------------------------------

  lemma ReadSizeAt(data: Bytes, p: nat, limit: nat, n: nat)
    requires At(data, p, SizeBytes(n)) && p + |SizeBytes(n)| <= limit <= |data| && n < TOP_BIT
    ensures ReadSize(data, p, limit) == Some((n, p + |SizeBytes(n)|))
  {
    SizeBytesOf(n);
    AtIndex(data, p, SizeBytes(n), 0);
  }

  /** The type byte, and where the rest of the value starts. */
  lemma TypeAt(data: Bytes, p: nat, typ: nat, rest: Bytes)
    requires At(data, p, TypeBytes(typ) + rest) && GoodType(typ)
    ensures data[p] == TypeByte(typ) && At(data, p + |TypeBytes(typ)|, rest)
    ensures |TypeBytes(typ)| == if HasMore(data[p]) then 2 else 1
    ensures typ == if HasMore(data[p]) then TwoBytes(data[p], data[p + 1]) else data[p]
  {
    AtConcat(data, p, TypeBytes(typ), rest);
    TypeBytesOf(typ);
    AtIndex(data, p, TypeBytes(typ), 0);
    if HasMore(data[p]) {
      AtIndex(data, p, TypeBytes(typ), 1);
    }
  }

  lemma HeadFields(data: Bytes, p: nat, limit: nat, kind: Kind, size: nat, count: nat)
    requires limit <= |data| && MIN_BINN_SIZE <= size < TOP_BIT && count < TOP_BIT
    requires At(data, p, [KindByte(kind)] + (SizeBytes(size) + SizeBytes(count)))
    requires p + 1 + |SizeBytes(size)| + |SizeBytes(count)| <= limit
    ensures ReadHead(data, p, limit) == Some(Head(kind, count, size, 1 + |SizeBytes(size)| + |SizeBytes(count)|))
    ensures ReadSize(data, p + 1, limit) == Some((size, p + 1 + |SizeBytes(size)|)) && data[p] == KindByte(kind)
  {
    hide At, SizeBytes, ReadSize, ReadHead;
    AtConcat(data, p, [KindByte(kind)], SizeBytes(size) + SizeBytes(count));
    AtIndex(data, p, [KindByte(kind)], 0);
    AtConcat(data, p + 1, SizeBytes(size), SizeBytes(count));
    ReadSizeAt(data, p + 1, limit, size);
    ReadSizeAt(data, p + 1 + |SizeBytes(size)|, limit, count);
    SizeBytesOf(size);
    SizeBytesOf(count);
    HeadOf(data, p, limit, kind, size, count, p + 1 + |SizeBytes(size)|, p + 1 + |SizeBytes(size)| + |SizeBytes(count)|);
  }

  lemma HeadOf(data: Bytes, p: nat, limit: nat, kind: Kind, size: nat, count: nat, q: nat, r: nat)
    requires p + MIN_BINN_SIZE <= limit <= |data| && data[p] == KindByte(kind) && MIN_BINN_SIZE <= size && p + 3 <= r
    requires ReadSize(data, p + 1, limit) == Some((size, q)) && ReadSize(data, q, limit) == Some((count, r))
    ensures ReadHead(data, p, limit) == Some(Head(kind, count, size, r - p))
  {
    hide ReadSize;
  }

  function HeaderSize(c: Container): nat {
    |Header(c.kind, |Body(c.items, |c.items|)|, |c.items|)|
  }

  lemma HeadAt(data: Bytes, p: nat, limit: nat, c: Container)
    requires Good(c) && At(data, p, Encode(c)) && p + |Encode(c)| <= limit <= |data|
    ensures ReadHead(data, p, limit) == Some(Head(c.kind, |c.items|, |Encode(c)|, HeaderSize(c)))
    ensures At(data, p + HeaderSize(c), Body(c.items, |c.items|))
    ensures ReadSize(data, p + 1, limit).Some? && ReadSize(data, p + 1, limit).value.0 == |Encode(c)|
    ensures data[p] == KindByte(c.kind)
  {
    var body := Body(c.items, |c.items|);
    EncodeSize(c);
    AtConcat(data, p, Header(c.kind, |body|, |c.items|), body);
    HeadFields(data, p, limit, c.kind, |Encode(c)|, |c.items|);
  }

  /** What GetValue shows of a value. */
  function Seen(v: Value): Got {
    match v
    case Scalar(typ, payload) =>
      if typ == BINN_TRUE then Got(BINN_BOOL, [1], 0)
      else if typ == BINN_FALSE then Got(BINN_BOOL, [0], 0)
      else Got(typ, payload, 0)
    case Text(typ, text) => Got(typ, text, 0)
    case Blob(typ, blob) => Got(typ, blob, 0)
    case Sub(c) => Got(KindByte(c.kind), Encode(c), |c.items|)
  }

  predicate ValueAt(data: Bytes, p: nat, limit: nat, v: Value) {
    GoodValue(v) && At(data, p, ValueBytes(v)) && p + |ValueBytes(v)| <= limit <= |data|
  }

  lemma ScalarAt(data: Bytes, p: nat, limit: nat, v: Value)
    requires ValueAt(data, p, limit, v) && v.Scalar?
    ensures Advance(data, p, limit) == Some(p + |ValueBytes(v)|) && GetValue(data, p, limit) == Some(Seen(v))
    ensures data[p] == TypeByte(v.typ)
  {
    TypeAt(data, p, v.typ, v.payload);
  }

  /** The fields of a string or blob. */
  lemma SizedAt(data: Bytes, p: nat, limit: nat, typ: nat, content: Bytes, tail: Bytes)
    requires GoodType(typ) && |content| < TOP_BIT && limit <= |data|
    requires At(data, p, TypeBytes(typ) + (SizeBytes(|content|) + (content + tail)))
    requires p + |TypeBytes(typ)| + |SizeBytes(|content|)| + |content| <= limit
    ensures data[p] == TypeByte(typ) && |TypeBytes(typ)| == (if HasMore(data[p]) then 2 else 1)
    ensures typ == if HasMore(data[p]) then TwoBytes(data[p], data[p + 1]) else data[p]
    ensures var q := p + |TypeBytes(typ)|; var after := q + |SizeBytes(|content|)|;
      ReadSize(data, q, limit) == Some((|content|, after)) && data[after..after + |content|] == content
  {
    TypeAt(data, p, typ, SizeBytes(|content|) + (content + tail));
    var q := p + |TypeBytes(typ)|;
    AtConcat(data, q, SizeBytes(|content|), content + tail);
    AtConcat(data, q + |SizeBytes(|content|)|, content, tail);
    ReadSizeAt(data, q, limit, |content|);
  }

  lemma TextAt(data: Bytes, p: nat, limit: nat, v: Value)
    requires ValueAt(data, p, limit, v) && v.Text?
    ensures Advance(data, p, limit) == Some(p + |ValueBytes(v)|) && GetValue(data, p, limit) == Some(Seen(v))
    ensures data[p] == TypeByte(v.typ)
  {
    SizedAt(data, p, limit, v.typ, v.text, [0]);
  }

  lemma BlobAt(data: Bytes, p: nat, limit: nat, v: Value)
    requires ValueAt(data, p, limit, v) && v.Blob?
    ensures Advance(data, p, limit) == Some(p + |ValueBytes(v)|) && GetValue(data, p, limit) == Some(Seen(v))
    ensures data[p] == TypeByte(v.typ)
  {
    assert v.blob + [] == v.blob;
    SizedAt(data, p, limit, v.typ, v.blob, []);
  }

  lemma ContainerByte(kind: Kind)
    ensures Storage(KindByte(kind)) == CONTAINER && !HasMore(KindByte(kind))
  {
  }

  lemma SubAt(data: Bytes, p: nat, limit: nat, v: Value)
    requires ValueAt(data, p, limit, v) && v.Sub?
    ensures Advance(data, p, limit) == Some(p + |ValueBytes(v)|) && GetValue(data, p, limit) == Some(Seen(v))
    ensures Storage(data[p]) == CONTAINER
  {
    HeadAt(data, p, limit, v.c);
    HeadAt(data, p, |data|, v.c);
    ContainerByte(v.c.kind);
  }

  /** A written value is skipped exactly and read back. */
  lemma ReadValue(data: Bytes, p: nat, limit: nat, v: Value)
    requires ValueAt(data, p, limit, v)
    ensures Advance(data, p, limit) == Some(p + |ValueBytes(v)|) && GetValue(data, p, limit) == Some(Seen(v))
    ensures Storage(data[p]) == CONTAINER <==> v.Sub?
  {
    match v
    case Scalar(_, _) => ScalarAt(data, p, limit, v);
    case Text(_, _) => TextAt(data, p, limit, v);
    case Blob(_, _) => BlobAt(data, p, limit, v);
    case Sub(_) => SubAt(data, p, limit, v);
  }

  // ---- Keys -------------------------------------------------------------

  predicate IdAt(data: Bytes, p: nat, limit: nat, id: int) {
    INT_MIN <= id <= 0x7FFF_FFFF && At(data, p, IdBytes(id)) && p + |IdBytes(id)| < limit <= |data|
  }

  /** What the lead byte of an id tells. */
  lemma LeadByteOf(top: byte, negative: bool, extra: nat)
    requires 1 <= extra <= 3 && top < 16
    ensures var c := LeadByte(top, negative, extra);
      c >= 128 && Extra(c) == extra && c % 16 == top && (c / 16 % 2 == 1 <==> negative)
  {
    var c: int, s := LeadByte(top, negative, extra), if negative then 1 else 0;
    assert c == 32 * (extra + 3) + 16 * s + top;
    assert c / 16 == 2 * (extra + 3) + s && c / 32 == extra + 3;
  }

  lemma TopBits(n: nat, extra: nat)
    requires (extra == 1 && n <= 0xFFF) || (extra == 2 && n <= 0xFFFFF) || (extra == 3 && n <= 0xFFF_FFFF)
    ensures BE(n, extra + 1)[0] < 16 && n < Pow256(extra + 1)
  {
    Widths();
    if extra == 1 {
      assert BE(n, 2)[0] == BE(n / 256, 1)[0];
    } else if extra == 2 {
      assert BE(n, 3)[0] == BE(n / 256, 2)[0] == BE(n / 256 / 256, 1)[0];
    } else {
      assert BE(n, 4)[0] == BE(n / 256, 3)[0] == BE(n / 256 / 256, 2)[0] == BE(n / 256 / 256 / 256, 1)[0];
    }
  }

  lemma TaggedBack(n: nat, negative: bool, extra: nat)
    requires 1 <= extra <= 3 && BE(n, extra + 1)[0] < 16 && n < Pow256(extra + 1)
    ensures var b := BE(n, extra + 1);
      var c := LeadByte(b[0], negative, extra);
      c >= 128 && Extra(c) == extra && LongId(c, b[1..]) == Signed(n, negative)
  {
    var b := BE(n, extra + 1);
    LeadByteOf(b[0], negative, extra);
    assert [b[0]] + b[1..] == b;
    ReadBack(n, extra + 1);
  }

  lemma FullBack(id: int)
    requires INT_MIN <= id <= 0x7FFF_FFFF
    ensures LongId(0xE0, BE(id % 0x1_0000_0000, 4)) == id
  {
    Widths();
    ReadBack(id % 0x1_0000_0000, 4);
  }

  /** An id written as a lead byte and a tail is read as their meaning. */
  lemma LongIdAt(data: Bytes, p: nat, limit: nat, c: byte, tail: Bytes)
    requires c >= 128 && Extra(c) == |tail| && At(data, p, [c] + tail) && p + 1 + |tail| < limit <= |data|
    ensures ReadMapId(data, p, limit) == (LongId(c, tail), p + 1 + |tail|)
  {
    AtConcat(data, p, [c], tail);
    AtIndex(data, p, [c], 0);
  }

  lemma TaggedAt(data: Bytes, p: nat, limit: nat, n: nat, negative: bool, extra: nat)
    requires 1 <= extra <= 3 && BE(n, extra + 1)[0] < 16 && n < Pow256(extra + 1)
    requires At(data, p, TaggedBytes(n, negative, extra)) && p + 1 + extra < limit <= |data|
    ensures ReadMapId(data, p, limit) == (Signed(n, negative), p + 1 + extra)
  {
    var b := BE(n, extra + 1);
    TaggedBack(n, negative, extra);
    LongIdAt(data, p, limit, LeadByte(b[0], negative, extra), b[1..]);
  }

  function Magnitude(id: int): nat { if id < 0 then -id else id }

  /** How many bytes follow the first in the encoding of an id of at most 28 bits. */
  function ExtraFor(n: nat): nat { if n <= 0xFFF then 1 else if n <= 0xFFFFF then 2 else 3 }

  /** The shapes an encoded id can have. */
  predicate IdForm(id: int, b: Bytes) {
    var n := Magnitude(id);
    if id == INT_MIN then b == [0x40]
    else if n <= 0x3F then b == [(if id < 0 then 64 else 0) + n]
    else if n <= 0xFFF_FFFF then b == TaggedBytes(n, id < 0, ExtraFor(n))
    else |b| == 5 && b[0] == 0xE0 && LongId(0xE0, b[1..]) == id
  }

  lemma IdBytesForm(id: int)
    requires INT_MIN <= id <= 0x7FFF_FFFF
    ensures IdForm(id, IdBytes(id))
  {
    FullBack(id);
    assert ([0xE0] + BE(id % 0x1_0000_0000, 4))[1..] == BE(id % 0x1_0000_0000, 4);
  }

  lemma ReadForm(data: Bytes, p: nat, limit: nat, id: int, b: Bytes)
    requires IdForm(id, b) && At(data, p, b) && p + |b| < limit <= |data|
    ensures ReadMapId(data, p, limit) == (if id == INT_MIN then 0 else id, p + |b|)
  {
    var n := Magnitude(id);
    if id == INT_MIN || n <= 0x3F {
      AtIndex(data, p, b, 0);
    } else if n <= 0xFFF_FFFF {
      TopBits(n, ExtraFor(n));
      TaggedAt(data, p, limit, n, id < 0, ExtraFor(n));
    } else {
      assert [b[0]] + b[1..] == b;
      LongIdAt(data, p, limit, 0xE0, b[1..]);
    }
  }

  /** An id that something follows is read back if and only if it is not INT_MIN, which is read as 0. */
  lemma ReadId(data: Bytes, p: nat, limit: nat, id: int)
    requires IdAt(data, p, limit, id)
    ensures ReadMapId(data, p, limit) == (if id == INT_MIN then 0 else id, p + |IdBytes(id)|)
  {
    IdBytesForm(id);
    ReadForm(data, p, limit, id, IdBytes(id));
  }
}
