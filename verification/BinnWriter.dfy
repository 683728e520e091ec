/**
 Building binn containers in place: a byte buffer whose first nine bytes are kept
 for the header, appended to by the add and set functions of binn.c.
 */
module BinnWriter {
  import opened Octets
  import opened Options
  import opened BinnFormat
  import opened BinnReader
  import opened BinnRoundTrip
  import opened BinnInts

  const MAX_BINN_HEADER: nat := 9
  const CHUNK_SIZE: nat := 256
  const SIZE_LIMIT: nat := 0x4000_0000

  /** CalcAllocation. */
  method CalcAllocation(needed: nat, alloc: nat) returns (size: nat)
    requires alloc > 0
    ensures size >= needed && size >= alloc && (size > alloc ==> size < 2 * needed)
  {
    size := alloc;
    while size < needed
      invariant size >= alloc && (size > alloc ==> size < 2 * needed)
      decreases needed - size
    {
      size := 2 * size;
    }
  }

  /** What AddValue reserves for a value before writing it. */
  function Reserve(v: Value): nat {
    match v
    case Scalar(_, payload) => |payload| + 2
    case Text(_, text) => |text| + 5 + 2
    case Blob(_, blob) => |blob| + 4 + 2
    case Sub(c) => |Encode(c)| + 2
  }

  lemma ReserveEnough(v: Value)
    requires GoodValue(v)
    ensures |ValueBytes(v)| <= Reserve(v)
  {
    hide Encode;
    match v
    case Scalar(typ, _) => TypeBytesOf(typ);
    case Text(typ, text) => TypeBytesOf(typ); SizeBytesOf(|text|);
    case Blob(typ, blob) => TypeBytesOf(typ); SizeBytesOf(|blob|);
    case Sub(_) =>
  }

  /** The bytes a number takes up, without its type. */
  function StoredWidth(typ: nat, n: int, compress: bool): nat { IntWidth(if compress then Compress(typ, n) else typ) }

  lemma ReserveInt(typ: nat, n: int, compress: bool)
    ensures Reserve(IntValue(typ, n, compress)) == StoredWidth(typ, n, compress) + 2
  {
  }

  /** Appending an item appends its bytes. */
  lemma BodyAppend(items: seq<Item>, item: Item)
    ensures Body(items + [item], |items| + 1) == Body(items, |items|) + ItemBytes(item)
  {
    BodyPrefix(items, item, |items|);
  }

  lemma {:induction false} BodyPrefix(items: seq<Item>, item: Item, n: nat)
    requires n <= |items|
    ensures Body(items + [item], n) == Body(items, n)
  {
    hide ItemBytes;
    if n > 0 {
      BodyPrefix(items, item, n - 1);
    }
  }

  // ---- Size bounds ------------------------------------------------------

  lemma {:induction false} CountBelowBody(items: seq<Item>, n: nat)
    requires n <= |items|
    ensures n <= |Body(items, n)|
  {
    hide KeyBytes, ValueBytes;
    if n > 0 {
      CountBelowBody(items, n - 1);
      ValueNotEmpty(items[n - 1].v);
    }
  }

  lemma EncodeBound(c: Container)
    requires |c.items| < TOP_BIT
    ensures |Encode(c)| <= MAX_BINN_HEADER + |Body(c.items, |c.items|)|
  {
    hide Body;
  }

  /** The container with one more item. */
  function With(c: Container, item: Item): Container { Container(c.kind, c.items + [item]) }

  lemma GoodWith(c: Container, item: Item)
    requires Good(c) && GoodKey(c.kind, item.key) && GoodValue(item.v)
    requires MAX_BINN_HEADER + |Body(c.items, |c.items|)| + |ItemBytes(item)| < SIZE_LIMIT
    ensures Good(With(c, item))
  {
    hide Encode, Body, ItemBytes, GoodKey, GoodValue;
    var d := With(c, item);
    BodyAppend(c.items, item);
    CountBelowBody(d.items, |d.items|);
    EncodeBound(d);
  }

  // ---- Keys -------------------------------------------------------------

  /** The loop of SearchForID and SearchForKey. */
  method SearchFor(data: Bytes, kind: Kind, header: nat, limit: nat, n: nat, key: Key) returns (r: Option<nat>)
    requires limit <= |data|
    ensures r == Search(data, kind, header, limit, n, key)
  {
    hide SkipKey, ReadKey, Advance, SameKey;
    var p, i := header, 0;
    while i < n
      invariant i <= n && Search(data, kind, header, limit, n, key) == Search(data, kind, p, limit, n - i, key)
    {
      var v := SkipKey(data, kind, p, limit);
      if v >= limit {
        return None;
      }
      if SameKey(ReadKey(data, kind, p, limit), key) {
        return Some(v);
      }
      var next := Advance(data, v, limit);
      if next.None? {
        return None;
      }
      p, i := next.value, i + 1;
    }
    return None;
  }

  /** Negation of a 32-bit int, which leaves INT_MIN as it is. */
  function Negated(id: int): int { if id == INT_MIN then INT_MIN else -id }

  lemma OneAfter(n: nat, negative: bool)
    requires n <= 0xFFF
    ensures TaggedBytes(n, negative, 1) == [0x80 + (if negative then 16 else 0) + n / 0x100] + [n % 256]
  {
    assert BE(n, 2) == BE(n / 256, 1) + [n % 256];
  }

  lemma TwoAfter(n: nat, negative: bool)
    requires n <= 0xFFFFF
    ensures TaggedBytes(n, negative, 2) ==
      [0xA0 + (if negative then 16 else 0) + n / 0x1_0000] + [n / 0x100 % 256] + [n % 256]
  {
    assert BE(n / 256, 2) == BE(n / 256 / 256, 1) + [n / 256 % 256];
    assert n / 256 / 256 == n / 0x1_0000;
    assert BE(n, 3) == BE(n / 256, 2) + [n % 256];
  }

  lemma ThreeAfter(n: nat, negative: bool)
    requires n <= 0xFFF_FFFF
    ensures TaggedBytes(n, negative, 3) ==
      [0xC0 + (if negative then 16 else 0) + n / 0x100_0000] + [n / 0x1_0000 % 256] + [n / 0x100 % 256] + [n % 256]
  {
    var m := n / 256;
    assert BE(m / 256, 2) == BE(m / 256 / 256, 1) + [m / 256 % 256];
    assert m / 256 / 256 == n / 0x100_0000 && m / 256 == n / 0x1_0000;
    assert BE(m, 3) == BE(m / 256, 2) + [m % 256];
    assert BE(n, 4) == BE(m, 3) + [n % 256];
  }

  // ---- The object -------------------------------------------------------

  /** struct binn, as created by binn_create. */
  class Binn {
    const kind: Kind
    const preAllocated: bool
    const compress: bool
    var pbuf: Bytes
    var used: nat
    var count: nat
    var dirty: bool
    var size: nat
    var start: nat
    ghost var items: seq<Item>

    ghost function Contents(): Container
      reads this
    {
      Container(kind, items)
    }

    predicate Sized()
      reads this`pbuf, this`used
    {
      MAX_BINN_HEADER <= used && MIN_BINN_SIZE <= |pbuf|
    }

    /** The buffer has the bytes that are used, the header space among them. */
    predicate Room()
      reads this`pbuf, this`used
    {
      used <= |pbuf|
    }

    /** The used part of the buffer; what a small buffer lacks of the header space counts as zeros. */
    function Used(): (b: Bytes)
      reads this`pbuf, this`used
      ensures |b| == used
    {
      if Room() then pbuf[..used] else pbuf + seq(used - |pbuf|, _ => 0)
    }

    /** The buffer holds the items after the header space. */
    ghost predicate Valid()
      reads this
    {
      && Sized() && (Room() || items == []) && count == |items| && Good(Contents())
      && Used()[MAX_BINN_HEADER..] == Body(items, |items|)
      && DistinctKeys(items)
      && (!dirty ==> Saved())
    }

    /** The header is written: the container's bytes start at `start`. */
    ghost predicate Saved()
      requires Sized()
      reads this
    {
      start <= MAX_BINN_HEADER && Used()[start..] == Encode(Contents()) && size == |Encode(Contents())|
    }

    /** The end of binn_create: an empty container with the buffer of the caller or a new one. */
    constructor (kind: Kind, size: nat, pre: Option<Bytes>, compress: bool)
      requires size >= MIN_BINN_SIZE && (pre.Some? ==> |pre.value| == size)
      ensures Valid() && this.kind == kind && this.compress == compress && items == []
      ensures preAllocated == pre.Some? && |pbuf| == size && used == MAX_BINN_HEADER
    {
      this.kind, this.compress := kind, compress;
      preAllocated := pre.Some?;
      pbuf := if pre.Some? then pre.value else seq(size, _ => 0);
      used, count, dirty, this.size, start := MAX_BINN_HEADER, 0, true, 0, 0;
      items := [];
      new;
      EmptyIsGood(kind);
    }

    /** binn_create, of any size, with a caller's buffer of that size or none: refused exactly for a negative size or
        a caller's buffer below three bytes. The header space fits unless the size given is from three to eight. */
    static method Create(kind: Kind, size: int, pre: Option<Bytes>, compress: bool) returns (r: Option<Binn>)
      requires pre.Some? ==> |pre.value| == size
      ensures r.Some? <==> size >= 0 && (pre.Some? ==> size >= MIN_BINN_SIZE)
      ensures r.Some? ==> var b := r.value;
        && fresh(b) && b.Valid() && b.kind == kind && b.compress == compress && b.items == []
        && b.preAllocated == pre.Some? && (b.Room() <==> size < MIN_BINN_SIZE || size >= MAX_BINN_HEADER)
    {
      if size < 0 || (size < MIN_BINN_SIZE && pre.Some?) {
        return None;
      }
      var alloc := if size < MIN_BINN_SIZE then CHUNK_SIZE else size;
      var b := new Binn(kind, alloc, pre, compress);
      return Some(b);
    }

    /** CheckAllocation. */
    method CheckAllocation(add: nat) returns (ok: bool)
      requires Sized()
      modifies this`pbuf
      ensures Sized() && Used() == old(Used())
      ensures ok == !(preAllocated && used + add > |old(pbuf)|)
      ensures ok ==> used + add <= |pbuf|
      ensures |old(pbuf)| <= |pbuf| && (preAllocated ==> |pbuf| == |old(pbuf)|)
    {
      if used + add > |pbuf| {
        if preAllocated {
          return false;
        }
        var n := CalcAllocation(used + add, |pbuf|);
        pbuf := pbuf + seq(n - |pbuf|, _ => 0);
      }
      return true;
    }

    /** Stores bytes after what is used. */
    method Append(b: Bytes)
      requires Sized() && used + |b| <= |pbuf|
      modifies this`pbuf, this`used
      ensures Sized() && Room() && Used() == old(Used()) + b && |pbuf| == |old(pbuf)|
    {
      pbuf := pbuf[..used] + b + pbuf[used + |b|..];
      used := used + |b|;
    }

    /** Stores a type of one or two bytes. */
    method AppendType(typ: nat)
      requires Sized() && GoodType(typ) && used + |TypeBytes(typ)| <= |pbuf|
      modifies this`pbuf, this`used
      ensures Sized() && Room() && Used() == old(Used()) + TypeBytes(typ) && |pbuf| == |old(pbuf)|
    {
      if typ > 255 {
        Append(BE(typ, 2));
      } else {
        Append([typ]);
      }
    }

    /** Stores a size in one byte or, with the top bit set, in four. */
    method AppendSize(n: nat)
      requires Sized() && n < TOP_BIT && used + |SizeBytes(n)| <= |pbuf|
      modifies this`pbuf, this`used
      ensures Sized() && Room() && Used() == old(Used()) + SizeBytes(n) && |pbuf| == |old(pbuf)|
    {
      if n > 127 {
        Append(BE(n + TOP_BIT, 4));
      } else {
        Append([n]);
      }
    }

    /** The writing part of AddValue. */
    method StoreValue(v: Value)
      requires Sized() && GoodValue(v) && used + |ValueBytes(v)| <= |pbuf|
      modifies this`pbuf, this`used
      ensures Sized() && Room() && Used() == old(Used()) + ValueBytes(v)
    {
      hide Encode, TypeBytes, SizeBytes, GoodType, Used;
      match v {
        case Scalar(typ, payload) =>
          AppendType(typ);
          Append(payload);
        case Text(typ, text) =>
          AppendType(typ);
          AppendSize(|text|);
          Append(text);
          Append([0]);
          assert Used() == old(Used()) + TypeBytes(typ) + SizeBytes(|text|) + text + [0];
        case Blob(typ, blob) =>
          AppendType(typ);
          AppendSize(|blob|);
          Append(blob);
          assert Used() == old(Used()) + TypeBytes(typ) + SizeBytes(|blob|) + blob;
        case Sub(c) => Append(Encode(c));
      }
    }

    /** AddValue: compresses a number first, and fails only when a caller's buffer has no room for what the value as
        stored reserves. */
    method AddValue(v: Value) returns (ok: bool)
      requires Sized() && GoodValue(v)
      modifies this`pbuf, this`used, this`dirty
      ensures Sized() && ok == !(preAllocated && old(used) + Reserve(Stored(v, compress)) > |old(pbuf)|)
      ensures ok ==> Used() == old(Used()) + ValueBytes(Stored(v, compress)) && dirty && Room()
      ensures !ok ==> Used() == old(Used()) && dirty == old(dirty) && used == old(used) && |pbuf| == |old(pbuf)|
    {
      hide ValueBytes, GoodValue, Reserve, IntValue, IsInt, FromPayload;
      var w := v;
      if IsIntValue(v) && compress {
        w := IntValue(v.typ, FromPayload(v.typ, v.payload), true);
      }
      StoredGood(v, compress);
      ok := CheckAllocation(Reserve(w));
      if ok {
        ReserveEnough(w);
        StoreValue(w);
        dirty := true;
      }
    }

    /** binn_list_add_raw: the value is appended, in its compressed form, unless this is no list or a caller's buffer
        is too small for what is reserved. */
    method ListAdd(v: Value) returns (ok: bool)
      requires Valid() && GoodValue(v) && used + |ItemBytes(Item(NoKey, Stored(v, compress)))| < SIZE_LIMIT
      modifies this
      ensures Valid() && (ok ==> Room())
      ensures ok == (kind == List && !(preAllocated && old(used) + Reserve(Stored(v, compress)) > |old(pbuf)|))
      ensures items == if ok then old(items) + [Item(NoKey, Stored(v, compress))] else old(items)
    {
      hide ValueBytes, GoodValue, Reserve, Encode, Body, SameKey, Stored;
      if kind != List {
        return false;
      }
      ghost var was := Contents();
      ListKeys(was);
      ok := AddValue(v);
      if ok {
        ghost var item := Item(NoKey, Stored(v, compress));
        assert KeyBytes(NoKey) + ValueBytes(item.v) == ValueBytes(item.v);
        StoredGood(v, compress);
        Added(was, old(Used()), item);
        count := count + 1;
        items := items + [item];
      }
    }

    /** The id written by binn_map_set_raw. */
    method AppendId(id: int)
      requires Sized() && INT_MIN <= id <= 0x7FFF_FFFF && used + 5 <= |pbuf|
      modifies this`pbuf, this`used
      ensures Sized() && Room() && Used() == old(Used()) + IdBytes(id) && |pbuf| == |old(pbuf)|
    {
      hide BE, TaggedBytes;
      var negative, n := id < 0, if id < 0 then Negated(id) else id;
      var sign := if negative then 16 else 0;
      if n <= 0x3F {
        Append([(if negative then 64 else 0) + n % 256]);
      } else if n <= 0xFFF {
        OneAfter(n, negative);
        Append([0x80 + sign + n / 0x100] + [n % 256]);
      } else if n <= 0xFFFFF {
        TwoAfter(n, negative);
        Append([0xA0 + sign + n / 0x1_0000] + [n / 0x100 % 256] + [n % 256]);
      } else if n <= 0xFFF_FFFF {
        ThreeAfter(n, negative);
        Append([0xC0 + sign + n / 0x100_0000] + [n / 0x1_0000 % 256] + [n / 0x100 % 256] + [n % 256]);
      } else {
        Append([0xE0] + BE(id % 0x1_0000_0000, 4));
      }
    }

    /** The end of binn_map_set_raw and binn_object_set_raw, once the key is stored. */
    method AddUnder(key: Key, v: Value, ghost before: Bytes) returns (ok: bool)
      requires Sized() && Room() && count == |items| && Good(Contents()) && DistinctKeys(items)
      requires MAX_BINN_HEADER <= |before| && before[MAX_BINN_HEADER..] == Body(items, |items|)
      requires Used() == before + KeyBytes(key)
      requires !dirty ==> start <= MAX_BINN_HEADER && before[start..] == Encode(Contents()) && size == |Encode(Contents())|
      requires GoodKey(kind, key) && GoodValue(v) && |before| + |ItemBytes(Item(key, Stored(v, compress)))| < SIZE_LIMIT
      requires IndexOf(items, key, 0).None?
      modifies this
      ensures Valid() && Room() && items == if ok then old(items) + [Item(key, Stored(v, compress))] else old(items)
      ensures ok == !(preAllocated && old(used) + Reserve(Stored(v, compress)) > |old(pbuf)|)
    {
      hide ValueBytes, GoodValue, Reserve, Encode, Body, KeyBytes, SameKey, Stored;
      ghost var was, item := Contents(), Item(key, Stored(v, compress));
      var keySize := |KeyBytes(key)|;
      ok := AddValue(v);
      if !ok {
        used := used - keySize;
        assert Used() == before;
        return;
      }
      assert Used() == before + (KeyBytes(key) + ValueBytes(item.v));
      StoredGood(v, compress);
      Added(was, before, item);
      count := count + 1;
      items := items + [item];
    }

    /** binn_map_set_raw: refused exactly when the id is there already, or a caller's buffer is too small for what
        is reserved. */
    method MapSet(id: int, v: Value) returns (ok: bool)
      requires Valid() && INT_MIN <= id <= 0x7FFF_FFFF && GoodValue(v)
      requires used + |ItemBytes(Item(Id(id), Stored(v, compress)))| < SIZE_LIMIT
      modifies this
      ensures Valid() && (ok ==> Room())
      ensures items == if ok then old(items) + [Item(Id(id), Stored(v, compress))] else old(items)
      ensures ok == (
        && kind == Map && IndexOf(old(items), Id(id), 0).None?
        && (preAllocated ==>
              old(used) + 5 <= |old(pbuf)| && old(used) + |IdBytes(id)| + Reserve(Stored(v, compress)) <= |old(pbuf)|))
    {
      hide IdBytes, ValueBytes, GoodValue, Reserve, Encode, Body, Search, IndexOf, Seen, GetValue, Stored, Used;
      if kind != Map {
        return false;
      }
      var found := Present(Id(id));
      if found {
        return false;
      }
      ghost var before := Used();
      ok := CheckAllocation(5);
      if !ok {
        return;
      }
      AppendId(id);
      ok := AddUnder(Id(id), v, before);
    }

    /** binn_object_set_raw: refused when the key is too long, exactly when it is there already in any case of
        letters, or when a caller's buffer is too small. */
    method ObjectSet(name: Bytes, v: Value) returns (ok: bool)
      requires Valid() && GoodValue(v)
      requires used + |ItemBytes(Item(Name(name), Stored(v, compress)))| < SIZE_LIMIT
      modifies this
      ensures Valid() && (ok ==> Room())
      ensures items == if ok then old(items) + [Item(Name(name), Stored(v, compress))] else old(items)
      ensures ok == (
        && kind == Object && |name| <= 255 && IndexOf(old(items), Name(name), 0).None?
        && (preAllocated ==> old(used) + 1 + |name| + Reserve(Stored(v, compress)) <= |old(pbuf)|))
    {
      hide ValueBytes, GoodValue, Reserve, Encode, Body, Search, IndexOf, Seen, GetValue, Stored, Used;
      if kind != Object || |name| > 255 {
        return false;
      }
      var found := Present(Name(name));
      if found {
        return false;
      }
      ghost var before := Used();
      ok := CheckAllocation(1 + |name|);
      if !ok {
        return;
      }
      Append([|name|]);
      Append(name);
      assert Used() == before + ([|name|] + name) && BE(|name|, 1) == [|name|];
      ok := AddUnder(Name(name), v, before);
    }

    /** binn_list_add_int8 to binn_list_add_uint64: the room needed is that of the compressed width. */
    method ListAddInt(typ: nat, n: int) returns (ok: bool)
      requires Valid() && IsInt(typ) && InRange(typ, n)
      requires used + |ItemBytes(Item(NoKey, IntValue(typ, n, compress)))| < SIZE_LIMIT
      modifies this
      ensures Valid() && (ok ==> Room())
      ensures ok == (kind == List && (preAllocated ==> old(used) + StoredWidth(typ, n, compress) + 2 <= |old(pbuf)|))
      ensures items == if ok then old(items) + [Item(NoKey, IntValue(typ, n, compress))] else old(items)
    {
      hide InRange, GoodValue, Payload, Stored, ItemBytes, Good;
      StoredInt(typ, n, compress);
      ReserveInt(typ, n, compress);
      ok := ListAdd(Scalar(typ, Payload(typ, n)));
    }

    /** binn_map_set_int8 to binn_map_set_uint64. */
    method MapSetInt(id: int, typ: nat, n: int) returns (ok: bool)
      requires Valid() && INT_MIN <= id <= 0x7FFF_FFFF && IsInt(typ) && InRange(typ, n)
      requires used + |ItemBytes(Item(Id(id), IntValue(typ, n, compress)))| < SIZE_LIMIT
      modifies this
      ensures Valid() && (ok ==> Room())
      ensures ok == (
        && kind == Map && IndexOf(old(items), Id(id), 0).None?
        && (preAllocated ==> old(used) + 5 <= |old(pbuf)| &&
                             old(used) + |IdBytes(id)| + StoredWidth(typ, n, compress) + 2 <= |old(pbuf)|))
      ensures items == if ok then old(items) + [Item(Id(id), IntValue(typ, n, compress))] else old(items)
    {
      hide InRange, GoodValue, Payload, Stored, ItemBytes, Good, IdBytes, IndexOf;
      StoredInt(typ, n, compress);
      ReserveInt(typ, n, compress);
      ok := MapSet(id, Scalar(typ, Payload(typ, n)));
    }

    /** binn_object_set_int8 to binn_object_set_uint64. */
    method ObjectSetInt(name: Bytes, typ: nat, n: int) returns (ok: bool)
      requires Valid() && IsInt(typ) && InRange(typ, n)
      requires used + |ItemBytes(Item(Name(name), IntValue(typ, n, compress)))| < SIZE_LIMIT
      modifies this
      ensures Valid() && (ok ==> Room())
      ensures ok == (
        && kind == Object && |name| <= 255 && IndexOf(old(items), Name(name), 0).None?
        && (preAllocated ==> old(used) + 1 + |name| + StoredWidth(typ, n, compress) + 2 <= |old(pbuf)|))
      ensures items == if ok then old(items) + [Item(Name(name), IntValue(typ, n, compress))] else old(items)
    {
      hide InRange, GoodValue, Payload, Stored, ItemBytes, Good, IndexOf;
      StoredInt(typ, n, compress);
      ReserveInt(typ, n, compress);
      ok := ObjectSet(name, Scalar(typ, Payload(typ, n)));
    }

    /** Writes bytes in front of what starts at `p`. */
    method Prepend(p: nat, b: Bytes) returns (q: nat)
      requires Sized() && Room() && |b| <= p <= MAX_BINN_HEADER
      modifies this`pbuf
      ensures Sized() && Room() && q == p - |b| && Used()[q..] == b + old(Used())[p..]
    {
      q := p - |b|;
      pbuf := pbuf[..q] + b + pbuf[p..];
    }

    method PrependSize(p: nat, n: nat) returns (q: nat)
      requires Sized() && Room() && 4 <= p <= MAX_BINN_HEADER && n < TOP_BIT
      modifies this`pbuf
      ensures Sized() && Room() && q == p - |SizeBytes(n)| && Used()[q..] == SizeBytes(n) + old(Used())[p..]
      ensures p - 4 <= q
    {
      if n > 127 {
        q := Prepend(p, BE(n + TOP_BIT, 4));
      } else {
        q := Prepend(p, [n]);
      }
    }

    /** The fields of the header, from the last to the first, in front of the items. */
    method PrependHeader() returns (p: nat, n: nat)
      requires Sized() && Room() && count < TOP_BIT && TotalSize(used - MAX_BINN_HEADER, count) < TOP_BIT
      modifies this`pbuf
      ensures Sized() && Room() && p <= MAX_BINN_HEADER && n == TotalSize(used - MAX_BINN_HEADER, count)
      ensures Used()[p..] == Header(kind, used - MAX_BINN_HEADER, count) + old(Used())[MAX_BINN_HEADER..]
    {
      hide SizeBytes, Used;
      ghost var body := Used()[MAX_BINN_HEADER..];
      n := used - MAX_BINN_HEADER + 3 + if count > 127 then 3 else 0;
      p := PrependSize(MAX_BINN_HEADER, count);
      if n > 127 {
        n := n + 3;
      }
      p := PrependSize(p, n);
      p := Prepend(p, [KindByte(kind)]);
      assert Used()[p..] == [KindByte(kind)] + (SizeBytes(n) + (SizeBytes(count) + body));
      Regroup([KindByte(kind)], SizeBytes(n), SizeBytes(count), body);
    }

    /** binn_save_header: the header goes right in front of the items. It is written to the header space, which an
        empty container in a buffer of three to eight bytes does not have. */
    method SaveHeader()
      requires Valid() && Room()
      modifies this`pbuf, this`size, this`start, this`dirty
      ensures Valid() && Room() && !dirty
    {
      hide Encode, Body, DistinctKeys, Good, Used, Header, TotalSize;
      ghost var body, before := Body(items, |items|), Used();
      CountAndSize(Contents());
      var p, n := PrependHeader();
      ghost var now := Used();
      KeptBody(before, now, p, Header(kind, |body|, count), body);
      start, size, dirty := p, n, false;
    }

    /** binn_ptr: the bytes of the container, which the validator accepts. */
    method Ptr() returns (data: Bytes)
      requires Valid() && Room()
      modifies this`pbuf, this`size, this`start, this`dirty
      ensures Valid() && Room() && !dirty && data == Encode(Contents()) && size == |data| && Holds(data, Contents())
      ensures Validate(data, 0, size) == Some(Head(kind, count, size, HeaderSize(Contents())))
    {
      hide Encode, Body, Validate, DistinctKeys, HeaderSize, Good;
      if dirty {
        SaveHeader();
      }
      data := pbuf[start..used];
      assert data == Used()[start..];
      WrittenIsValid(data, 0, size, Contents());
    }

    /** The duplicate check of the set functions: is there an item under the key? */
    method Present(key: Key) returns (found: bool)
      requires Valid()
      ensures found == IndexOf(items, key, 0).Some?
    {
      hide Encode, Search, IndexOf, Seen, GetValue, Good;
      if count == 0 {
        return false;
      }
      var r := SearchFor(pbuf, kind, MAX_BINN_HEADER, used, count, key);
      assert pbuf[..used][MAX_BINN_HEADER..] == pbuf[MAX_BINN_HEADER..used];
      SearchFinds(pbuf, MAX_BINN_HEADER, used, Contents(), 0, key);
      found := r.Some?;
    }
  }

  lemma CountAndSize(c: Container)
    requires Good(c)
    ensures |c.items| < TOP_BIT && |Encode(c)| < TOP_BIT
    ensures |Encode(c)| == TotalSize(|Body(c.items, |c.items|)|, |c.items|)
    ensures Encode(c) == Header(c.kind, |Body(c.items, |c.items|)|, |c.items|) + Body(c.items, |c.items|)
  {
    hide Body, Header;
    EncodeSize(c);
  }

  lemma Regroup(a: Bytes, b: Bytes, c: Bytes, d: Bytes)
    ensures a + (b + (c + d)) == a + (b + c) + d
  {
  }

  /** Writing a header that ends where the items start leaves the items alone. */
  lemma KeptBody(before: Bytes, now: Bytes, p: nat, header: Bytes, body: Bytes)
    requires p + |header| <= |now| == |before| && |before| == MAX_BINN_HEADER + |body|
    requires now[p..] == header + body && before[MAX_BINN_HEADER..] == body
    ensures p <= MAX_BINN_HEADER && now[MAX_BINN_HEADER..] == body
  {
    assert p + |header| == MAX_BINN_HEADER;
    assert now[MAX_BINN_HEADER..] == now[p..][|header|..];
  }

  lemma ListKeys(c: Container)
    requires Good(c) && c.kind == List
    ensures forall i, k :: 0 <= i < |c.items| ==> !SameKey(Heard(c.items[i].key), k)
  {
  }

  /** A used part with one more item's bytes holds one more item. */
  lemma Added(c: Container, before: Bytes, item: Item)
    requires Good(c) && GoodKey(c.kind, item.key) && GoodValue(item.v)
    requires MAX_BINN_HEADER <= |before| && before[MAX_BINN_HEADER..] == Body(c.items, |c.items|)
    requires |before| + |ItemBytes(item)| < SIZE_LIMIT
    ensures Good(With(c, item))
    ensures (before + ItemBytes(item))[MAX_BINN_HEADER..] == Body(c.items + [item], |c.items| + 1)
  {
    hide Encode, Body, ItemBytes, GoodKey, GoodValue;
    BodyAppend(c.items, item);
    GoodWith(c, item);
  }

  lemma EmptyIsGood(kind: Kind)
    ensures Good(Container(kind, []))
  {
  }

  // ---- Iterators --------------------------------------------------------

  /** binn_iter over a container. */
  class BinnIter {
    const data: Bytes
    var kind: Kind
    var pnext: Option<nat>
    var limit: nat
    var current: nat
    var count: nat

    constructor (data: Bytes)
      ensures this.data == data
    {
      this.data := data;
      kind, pnext, limit, current, count := List, None, 0, 0, 0;
    }

    /** The iterator stands before item `current` of the container. */
    ghost predicate On(c: Container)
      reads this
    {
      && Holds(data, c) && kind == c.kind && count == |c.items| && current <= count && limit == |Encode(c)|
      && pnext == Some(Pos(c, HeaderSize(c), current))
    }

    /** binn_iter_init. */
    method Init(expected: Kind, ghost c: Container) returns (ok: bool)
      requires Holds(data, c)
      modifies this
      ensures ok == (c.kind == expected)
      ensures ok ==> On(c) && current == 0
    {
      hide Encode, Good, HeaderSize, ReadHead;
      HoldsItems(data, c);
      var h := ReadHead(data, 0, |data|);
      if h.None? || h.value.kind != expected {
        return false;
      }
      kind, count, current := expected, h.value.count, 0;
      limit, pnext := h.value.size, Some(h.value.headerSize);
      return true;
    }

    /** binn_list_next and binn_read_next_pair: the next item in order; after the last, nothing at this and every
        further call. */
    method Next(ghost c: Container) returns (r: Option<(Key, Got)>)
      requires On(c)
      modifies this
      ensures r ==
        if old(current) >= |c.items| then None
        else Some((Heard(c.items[old(current)].key), Seen(c.items[old(current)].v)))
      ensures On(c) && current == if old(current) < |c.items| then old(current) + 1 else old(current)
    {
      hide Encode, Good, HeaderSize, ReadHead, SkipKey, ReadKey, Advance, GetValue, Seen, GoodKey, GoodValue, ValueBytes;
      HoldsItems(data, c);
      EncodeSplit(c);
      if pnext.None? || pnext.value >= limit || current > count {
        if current < count {
          ItemAt(data, HeaderSize(c), limit, c, current);
        }
        return None;
      }
      current := current + 1;
      if current > count {
        return None;
      }
      var p := pnext.value;
      ItemAt(data, HeaderSize(c), limit, c, current - 1);
      var v := SkipKey(data, kind, p, limit);
      pnext := Advance(data, v, limit);
      var got := GetValue(data, v, limit);
      return Some((ReadKey(data, kind, p, limit), got.value));
    }
  }

  // ---- Integers ---------------------------------------------------------

  /** binn_list_get, binn_map_get and binn_object_get with an integer type: what was found, converted. */
  function AsInt(got: Option<Got>, typ: nat): Option<int> {
    if got.None? then None else CopyInt(got.value.typ, FromPayload(got.value.typ, got.value.data), typ)
  }

  /** A number as stored, compressed or not, converts back to the type it was added as. */
  lemma IntSeen(typ: nat, n: int, compress: bool)
    requires IsInt(typ) && InRange(typ, n)
    ensures AsInt(Some(Seen(IntValue(typ, n, compress))), typ) == Some(n)
  {
    hide CopyInt, FromPayload, Payload, InRange;
    CompressionKeepsValue(typ, n);
    PayloadBack(typ, n);
    CopyIntExact(typ, n, typ);
  }

  /** An integer of a list, map or object, compressed or not, reads back as the number in the type it was added as: by
      position, and under its key unless that is INT_MIN. */
  lemma IntegersReadBack(data: Bytes, c: Container, i: nat, typ: nat, n: int, compress: bool)
    requires Holds(data, c) && DistinctKeys(c.items) && i < |c.items|
    requires IsInt(typ) && InRange(typ, n) && c.items[i].v == IntValue(typ, n, compress)
    ensures c.kind == List ==> AsInt(ListGet(data, i + 1), typ) == Some(n)
    ensures c.kind != List ==>
      && PairGet(data, c.kind, i + 1).Some? && PairGet(data, c.kind, i + 1).value.0 == Heard(c.items[i].key)
      && AsInt(Some(PairGet(data, c.kind, i + 1).value.1), typ) == Some(n)
      && AsInt(KeyedGet(data, c.kind, c.items[i].key), typ) == if c.items[i].key == Id(INT_MIN) then None else Some(n)
  {
    hide ListGet, PairGet, KeyedGet, Encode, Good, CopyInt, FromPayload, InRange, IntValue, Seen, DistinctKeys;
    IntSeen(typ, n, compress);
    if c.kind == List {
      ListReadsBack(data, c, i + 1);
    } else {
      PairsReadBack(data, c, i + 1);
      FoundUnderOwnKey(data, c, i);
    }
  }

  /** The last of the items an iterator gives. */
  method LastByIterator(data: Bytes, ghost c: Container) returns (r: Option<(Key, Got)>)
    requires Holds(data, c) && c.items != []
    ensures var last := c.items[|c.items| - 1]; r == Some((Heard(last.key), Seen(last.v)))
  {
    hide Holds, Seen;
    var it := new BinnIter(data);
    var kind := KindOf(data, c);
    var ok := it.Init(kind, c);
    r := it.Next(c);
    while it.current < it.count
      invariant it.On(c) && 0 < it.current
      invariant r == Some((Heard(c.items[it.current - 1].key), Seen(c.items[it.current - 1].v)))
    {
      r := it.Next(c);
    }
  }

  /** The kind a header names. */
  method KindOf(data: Bytes, ghost c: Container) returns (kind: Kind)
    requires Holds(data, c)
    ensures kind == c.kind
  {
    hide Encode, Good, ReadHead;
    HoldsItems(data, c);
    kind := ReadHead(data, 0, |data|).value.kind;
  }

  /** The number added last is read back in every way there is: by position, under its key, by an iterator. */
  method ReadLastInt(data: Bytes, ghost c: Container, kind: Kind, count: nat, key: Key, typ: nat, ghost n: int,
                     ghost compress: bool)
    returns (byPosition: Option<int>, byKey: Option<int>, byIterator: Option<int>)
    requires Holds(data, c) && DistinctKeys(c.items) && kind == c.kind && count == |c.items| > 0
    requires IsInt(typ) && InRange(typ, n) && c.items[count - 1] == Item(key, IntValue(typ, n, compress))
    ensures byPosition == Some(n) && byIterator == Some(n)
    ensures kind != List ==> byKey == if key == Id(INT_MIN) then None else Some(n)
  {
    hide InRange, Holds, DistinctKeys, IntValue, Seen, AsInt, PairGet, KeyedGet, ListGet;
    IntegersReadBack(data, c, count - 1, typ, n, compress);
    IntSeen(typ, n, compress);
    var last := LastByIterator(data, c);
    byIterator := AsInt(Some(last.value.1), typ);
    if kind == List {
      var got := ListGetValue(data, count);
      byPosition, byKey := AsInt(got, typ), None;
    } else {
      byPosition := AsInt(Some(PairGet(data, kind, count).value.1), typ);
      byKey := AsInt(KeyedGet(data, kind, key), typ);
    }
  }

  /** Adds a number through the function for its kind of key. */
  method AddInt(b: Binn, key: Key, typ: nat, n: int) returns (ok: bool)
    requires b.Valid() && (key.Id? ==> INT_MIN <= key.id <= 0x7FFF_FFFF) && IsInt(typ) && InRange(typ, n)
    requires b.used + |ItemBytes(Item(key, IntValue(typ, n, b.compress)))| < SIZE_LIMIT
    modifies b
    ensures b.Valid() && (ok ==> b.Room())
    ensures b.items == if ok then old(b.items) + [Item(key, IntValue(typ, n, b.compress))] else old(b.items)
    ensures ok ==> GoodKey(b.kind, key)
    ensures !b.preAllocated ==> (ok <==> GoodKey(b.kind, key) && IndexOf(old(b.items), key, 0).None?)
  {
    hide InRange, ItemBytes, IntValue, Encode, Body, IdBytes;
    match key {
      case NoKey =>
        if b.kind == List {
          ListKeys(b.Contents());
        }
        ok := b.ListAddInt(typ, n);
      case Id(id) => ok := b.MapSetInt(id, typ, n);
      case Name(name) => ok := b.ObjectSetInt(name, typ, n);
    }
  }

  /** A number added to a container is read back from the bytes handed out. */
  method AddAndReadInt(b: Binn, key: Key, typ: nat, n: int)
    returns (ok: bool, byPosition: Option<int>, byKey: Option<int>, byIterator: Option<int>)
    requires b.Valid() && (key.Id? ==> INT_MIN <= key.id <= 0x7FFF_FFFF) && IsInt(typ) && InRange(typ, n)
    requires b.used + |ItemBytes(Item(key, IntValue(typ, n, b.compress)))| < SIZE_LIMIT
    modifies b
    ensures b.Valid() && b.items == if ok then old(b.items) + [Item(key, IntValue(typ, n, b.compress))] else old(b.items)
    ensures ok ==> byPosition == Some(n) && byIterator == Some(n)
    ensures ok && b.kind != List ==> byKey == if key == Id(INT_MIN) then None else Some(n)
    ensures !b.preAllocated ==> (ok <==> GoodKey(b.kind, key) && IndexOf(old(b.items), key, 0).None?)
  {
    hide InRange, ItemBytes, Good, Holds, Encode, IntValue, IndexOf, Body, GoodKey, DistinctKeys;
    byPosition, byKey, byIterator := None, None, None;
    ok := AddInt(b, key, typ, n);
    if ok {
      var data := b.Ptr();
      byPosition, byKey, byIterator := ReadLastInt(data, b.Contents(), b.kind, b.count, key, typ, n, b.compress);
    }
  }
}
