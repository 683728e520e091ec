/**
 What was written into a binn container is what its readers find: the validator
 accepts it, and positions, keys, ids and iterators give back the items.
 */
module BinnRoundTrip {
  import opened Octets
  import opened Options
  import opened BinnFormat
  import opened BinnReader

  // ---- Items ------------------------------------------------------------

  /** The key of the pair at `p`, if its bytes are all there. */
  function ReadKey(data: Bytes, kind: Kind, p: nat, limit: nat): Key
    requires limit <= |data| && (kind == Object ==> SkipKey(data, kind, p, limit) < limit)
  {
    match kind
    case List => NoKey
    case Map => Id(ReadMapId(data, p, limit).0)
    case Object => Name(data[p + 1..p + 1 + data[p]])
  }

  lemma KeyAt(data: Bytes, kind: Kind, p: nat, limit: nat, k: Key)
    requires GoodKey(kind, k) && At(data, p, KeyBytes(k)) && p + |KeyBytes(k)| < limit <= |data|
    ensures SkipKey(data, kind, p, limit) == p + |KeyBytes(k)| && ReadKey(data, kind, p, limit) == Heard(k)
  {
    match k
    case NoKey =>
    case Id(id) => ReadId(data, p, limit, id);
    case Name(name) =>
      assert BE(|name|, 1) == [|name|];
      AtConcat(data, p, [|name|], name);
      AtIndex(data, p, [|name|], 0);
  }

  /** The items of `c` stand in `data` from `h` on. */
  predicate ItemsAt(data: Bytes, h: nat, limit: nat, c: Container) {
    && Good(c) && At(data, h, Body(c.items, |c.items|))
    && h + |Body(c.items, |c.items|)| <= limit <= |data|
  }

  /** Where item `i` starts. */
  function Pos(c: Container, h: nat, i: nat): nat
    requires i <= |c.items|
  {
    h + |Body(c.items, i)|
  }

  lemma {:induction false} BodyHas(data: Bytes, h: nat, items: seq<Item>, n: nat, i: nat)
    requires i < n <= |items| && At(data, h, Body(items, n))
    ensures At(data, h + |Body(items, i)|, ItemBytes(items[i]))
    ensures |Body(items, i)| + |ItemBytes(items[i])| == |Body(items, i + 1)| <= |Body(items, n)|
  {
    hide ItemBytes;
    AtConcat(data, h, Body(items, n - 1), ItemBytes(items[n - 1]));
    if i < n - 1 {
      BodyHas(data, h, items, n - 1, i);
    }
  }

  /** An item at `p` is read: key, value, and the position after it. */
  predicate Reads(data: Bytes, kind: Kind, p: nat, limit: nat, item: Item, next: nat)
    requires limit <= |data|
  {
    var v := SkipKey(data, kind, p, limit);
    && v < limit && ReadKey(data, kind, p, limit) == Heard(item.key)
    && ValueAt(data, v, limit, item.v) && v + |ValueBytes(item.v)| == next
    && Advance(data, v, limit) == Some(next) && GetValue(data, v, limit) == Some(Seen(item.v))
    && (Storage(data[v]) == CONTAINER <==> item.v.Sub?)
  }

  lemma ItemHere(data: Bytes, kind: Kind, p: nat, limit: nat, item: Item)
    requires GoodKey(kind, item.key) && GoodValue(item.v)
    requires At(data, p, ItemBytes(item)) && p + |ItemBytes(item)| <= limit <= |data|
    ensures Reads(data, kind, p, limit, item, p + |ItemBytes(item)|)
  {
    hide KeyBytes, ValueBytes, GoodKey, GoodValue, SkipKey, ReadKey, Advance, GetValue, Seen;
    var k, v := KeyBytes(item.key), ValueBytes(item.v);
    AtConcat(data, p, k, v);
    ValueNotEmpty(item.v);
    KeyAt(data, kind, p, limit, item.key);
    ReadValue(data, p + |k|, limit, item.v);
  }

  /** Item `i` is read where it stands: its key, its value, and the start of the next item. */
  lemma ItemAt(data: Bytes, h: nat, limit: nat, c: Container, i: nat)
    requires ItemsAt(data, h, limit, c) && i < |c.items|
    ensures Reads(data, c.kind, Pos(c, h, i), limit, c.items[i], Pos(c, h, i + 1))
  {
    hide ItemBytes, GoodKey, GoodValue, Reads, Encode;
    BodyHas(data, h, c.items, |c.items|, i);
    ItemHere(data, c.kind, Pos(c, h, i), limit, c.items[i]);
  }

  lemma SubValue(v: Value)
    requires v.Sub?
    ensures ValueBytes(v) == Encode(v.c) && (GoodValue(v) <==> Good(v.c))
  {
  }

  lemma ValueNotEmpty(v: Value)
    ensures |ValueBytes(v)| > 0
  {
  }

  lemma {:induction false} WalkItems(data: Bytes, h: nat, limit: nat, c: Container, i: nat, n: nat)
    requires ItemsAt(data, h, limit, c) && i + n <= |c.items|
    ensures Walk(data, c.kind, Pos(c, h, i), limit, n) == Some(Pos(c, h, i + n))
    decreases n
  {
    hide Encode, SkipKey, ReadKey, Advance, GetValue, Seen, ValueBytes, GoodValue, GoodKey, Storage;
    if n > 0 {
      ItemAt(data, h, limit, c, i);
      WalkItems(data, h, limit, c, i + 1, n - 1);
    }
  }

  // ---- The validator ----------------------------------------------------

  /** binn_is_valid_ex2 accepts every written container, at any depth of nesting, and reports
      its kind, count and size. */
  lemma {:induction false} WrittenIsValid(data: Bytes, p: nat, limit: nat, c: Container)
    requires Good(c) && At(data, p, Encode(c)) && p + |Encode(c)| <= limit <= |data|
    ensures Validate(data, p, limit) == Some(Head(c.kind, |c.items|, |Encode(c)|, HeaderSize(c)))
    decreases c, |c.items| + 1
  {
    hide Encode, HeaderSize, ReadHead, ReadSize, Validate, ValidItems;
    HeadAt(data, p, limit, c);
    EncodeSplit(c);
    ItemsAreValid(data, p + HeaderSize(c), p + |Encode(c)|, c, 0);
    ValidateUnfold(data, p, limit, Head(c.kind, |c.items|, |Encode(c)|, HeaderSize(c)));
  }

  lemma EncodeSplit(c: Container)
    ensures |Encode(c)| == HeaderSize(c) + |Body(c.items, |c.items|)|
  {
  }

  lemma ValidateUnfold(data: Bytes, p: nat, limit: nat, h: Head)
    requires limit <= |data| && ReadHead(data, p, limit) == Some(h) && p + h.size <= limit
    requires ValidItems(data, h.kind, p + h.headerSize, p + h.size, h.count)
    ensures Validate(data, p, limit) == Some(h)
  {
  }

  lemma {:induction false} ItemsAreValid(data: Bytes, h: nat, limit: nat, c: Container, i: nat)
    requires ItemsAt(data, h, limit, c) && i <= |c.items|
    ensures ValidItems(data, c.kind, Pos(c, h, i), limit, |c.items| - i)
    decreases c, |c.items| - i
  {
    hide Encode, SkipKey, ReadKey, Advance, GetValue, Seen, ValueBytes, GoodValue, GoodKey, Validate, Storage;
    if i < |c.items| {
      ItemAt(data, h, limit, c, i);
      ItemsAreValid(data, h, limit, c, i + 1);
      var v := c.items[i].v;
      if v.Sub? {
        SubValue(v);
        WrittenIsValid(data, SkipKey(data, c.kind, Pos(c, h, i), limit), limit, v.c);
      }
    }
  }

  // ---- What acceptance means --------------------------------------------

  /** The value of item `i`, where the readers look for it. */
  function ValuePos(data: Bytes, kind: Kind, p: nat, limit: nat, i: nat): Option<nat>
    requires limit <= |data|
  {
    match Walk(data, kind, p, limit, i)
    case None => None
    case Some(q) => var v := SkipKey(data, kind, q, limit); if v < limit then Some(v) else None
  }

  lemma ContainerStep(data: Bytes, v: nat, limit: nat)
    requires limit <= |data| && ReadHead(data, v, limit).Some?
    ensures Advance(data, v, limit) == Some(v + ReadHead(data, v, limit).value.size)
    ensures ReadHead(data, v, |data|) == ReadHead(data, v, limit)
  {
    SizeBeyond(data, v + 1, limit);
    var (_, q) := ReadSize(data, v + 1, limit).value;
    SizeBeyond(data, q, limit);
  }

  /** A size field that is read within a limit is read the same without it. */
  lemma SizeBeyond(data: Bytes, p: nat, limit: nat)
    requires limit <= |data| && ReadSize(data, p, limit).Some?
    ensures ReadSize(data, p, |data|) == ReadSize(data, p, limit)
  {
  }

  /** The bytes a reader needs of the value are within the limit: all of it, but for the zero after a string. */
  predicate EndsWithin(data: Bytes, v: nat, limit: nat)
    requires limit <= |data| && v < limit && Advance(data, v, limit).Some?
  {
    Advance(data, v, limit).value <= limit + if Storage(data[v]) == STRING then 1 else 0
  }

  /** A value that is not a container can be read exactly if it ends within the limit. */
  lemma EndedValueReads(data: Bytes, v: nat, limit: nat)
    requires limit <= |data| && v < limit && Storage(data[v]) != CONTAINER
    requires Advance(data, v, limit).Some?
    ensures GetValue(data, v, limit).Some? <==> EndsWithin(data, v, limit)
  {
  }

  /** One item of an accepted container: the readers step over it as the validator did. */
  lemma AcceptedStep(data: Bytes, kind: Kind, p: nat, limit: nat, n: nat)
    requires limit <= |data| && n > 0 && ValidItems(data, kind, p, limit, n)
    ensures var v := SkipKey(data, kind, p, limit);
      && v < limit && Advance(data, v, limit).Some?
      && ValidItems(data, kind, Advance(data, v, limit).value, limit, n - 1)
      && (Storage(data[v]) == CONTAINER ==> Validate(data, v, limit).Some? && ReadHead(data, v, |data|).Some?)
  {
    hide ReadHead, SkipKey, Advance;
    var v := SkipKey(data, kind, p, limit);
    if Storage(data[v]) == CONTAINER {
      ContainerStep(data, v, limit);
    }
  }

  /** In an accepted container every item is found; nested containers are themselves accepted; each item but the
      last can be read; and the last can be read if and only if it is a container or ends within this one. */
  lemma {:induction false} AcceptedReads(data: Bytes, kind: Kind, p: nat, limit: nat, n: nat, i: nat)
    requires limit <= |data| && ValidItems(data, kind, p, limit, n) && i < n
    ensures var v := ValuePos(data, kind, p, limit, i);
      && v.Some? && Advance(data, v.value, limit).Some?
      && (Storage(data[v.value]) == CONTAINER ==> Validate(data, v.value, limit).Some?)
      && (GetValue(data, v.value, limit).Some? <==>
            i + 1 < n || Storage(data[v.value]) == CONTAINER || EndsWithin(data, v.value, limit))
    decreases i
  {
    hide ReadHead, SkipKey, Advance, GetValue, Validate;
    var v := SkipKey(data, kind, p, limit);
    AcceptedStep(data, kind, p, limit, n);
    var q := Advance(data, v, limit).value;
    if i > 0 {
      AcceptedReads(data, kind, q, limit, n - 1, i - 1);
    } else {
      if n > 1 {
        AcceptedStep(data, kind, q, limit, n - 1);
        KeyAfter(data, kind, q, limit);
      }
      if Storage(data[v]) == CONTAINER {
        ContainerReads(data, v, limit);
      } else {
        EndedValueReads(data, v, limit);
      }
    }
  }

  /** For lists: of an accepted list, position `pos` is read exactly if it is in range and, when it is the last, a
      container or ending within the list. */
  lemma AcceptedListReads(data: Bytes, pos: int)
    requires Validate(data, 0, |data|).Some? && Validate(data, 0, |data|).value.kind == List
    ensures var h := Validate(data, 0, |data|).value;
      ListGet(data, pos).Some? <==>
        && 1 <= pos <= h.count
        && var v := ValuePos(data, List, h.headerSize, h.size, pos - 1);
           && v.Some? && Advance(data, v.value, h.size).Some?
           && (pos < h.count || Storage(data[v.value]) == CONTAINER || EndsWithin(data, v.value, h.size))
  {
    hide ReadHead, Advance, GetValue;
    var h := Validate(data, 0, |data|).value;
    if 1 <= pos <= h.count {
      AcceptedReads(data, List, h.headerSize, h.size, h.count, pos - 1);
    }
  }

  /** The input the validator accepts and no reader reads: a list of four bytes whose one value, a byte, is cut off
      after its type. */
  lemma AcceptedButUnreadable()
    ensures var data: Bytes := [0xE0, 4, 1, 0x20];
      Validate(data, 0, 4).Some? && ListGet(data, 1) == None
  {
    var data: Bytes := [0xE0, 4, 1, 0x20];
    assert ReadHead(data, 0, 4) == Some(Head(List, 1, 4, 3));
    assert Advance(data, 3, 4) == Some(5);
    assert ValidItems(data, List, 5, 4, 0) && ValidItems(data, List, 3, 4, 1);
    assert Walk(data, List, 3, 4, 0) == Some(3);
  }

  lemma KeyAfter(data: Bytes, kind: Kind, q: nat, limit: nat)
    requires limit <= |data| && SkipKey(data, kind, q, limit) < limit
    ensures q < limit
  {
  }

  lemma ContainerReads(data: Bytes, v: nat, limit: nat)
    requires limit <= |data| && v < limit && Storage(data[v]) == CONTAINER && ReadHead(data, v, |data|).Some?
    ensures GetValue(data, v, limit).Some?
  {
  }

  /** binn_is_valid_ex2 with what its caller already knows: a kind, and a count other than 0. */
  function ValidateAs(data: Bytes, p: nat, limit: nat, kind: Option<Kind>, count: nat): Option<Head>
    requires limit <= |data|
  {
    match Validate(data, p, limit)
    case None => None
    case Some(h) => if (kind.None? || kind.value == h.kind) && (count == 0 || count == h.count) then Some(h) else None
  }

  /** The loop of binn_is_valid_ex2. */
  method IsValid(data: Bytes, p: nat, limit: nat, kind: Option<Kind>, count: nat) returns (r: Option<Head>)
    requires limit <= |data|
    ensures r == ValidateAs(data, p, limit, kind, count)
    decreases if p < limit then limit - p else 0
  {
    hide ReadHead, SkipKey, Advance, Storage;
    r := ReadHead(data, p, limit);
    if r.None? || p + r.value.size > limit {
      return None;
    }
    var h := r.value;
    if (count > 0 && h.count != count) || (kind.Some? && h.kind != kind.value) {
      return None;
    }
    var q, end, i := p + h.headerSize, p + h.size, 0;
    while i < h.count
      invariant i <= h.count && p < q
      invariant ValidItems(data, h.kind, p + h.headerSize, end, h.count) == ValidItems(data, h.kind, q, end, h.count - i)
    {
      var v := SkipKey(data, h.kind, q, end);
      if v >= end {
        return None;
      }
      if Storage(data[v]) == CONTAINER {
        var sub := IsValid(data, v, end, None, 0);
        if sub.None? {
          return None;
        }
        q := v + sub.value.size;
      } else {
        var next := Advance(data, v, end);
        if next.None? {
          return None;
        }
        q := next.value;
      }
      i := i + 1;
    }
  }

  // ---- Reading by position ----------------------------------------------

  /** binn_list_get_value, with positions from 1. */
  function ListGet(data: Bytes, pos: int): Option<Got> {
    match ReadHead(data, 0, |data|)
    case None => None
    case Some(h) =>
      if h.kind != List || pos <= 0 || pos > h.count || h.size > |data| then None
      else
        match Walk(data, List, h.headerSize, h.size, pos - 1)
        case None => None
        case Some(p) => GetValue(data, p, h.size)
  }

  /** The loop of binn_list_get_value. */
  method ListGetValue(data: Bytes, pos: int) returns (r: Option<Got>)
    ensures r == ListGet(data, pos)
  {
    hide ReadHead, Advance, GetValue;
    var head := ReadHead(data, 0, |data|);
    if head.None? || head.value.kind != List || pos <= 0 || pos > head.value.count || head.value.size > |data| {
      return None;
    }
    var h := head.value;
    var p, i := h.headerSize, 0;
    while i < pos - 1
      invariant i <= pos - 1
      invariant Walk(data, List, h.headerSize, h.size, pos - 1) == Walk(data, List, p, h.size, pos - 1 - i)
    {
      var next := Advance(data, p, h.size);
      if next.None? {
        return None;
      }
      p, i := next.value, i + 1;
    }
    r := GetValue(data, p, h.size);
  }

  /** binn_read_pair: the key and value at a position of a map or object. */
  function PairGet(data: Bytes, kind: Kind, pos: int): Option<(Key, Got)> {
    match ReadHead(data, 0, |data|)
    case None => None
    case Some(h) =>
      if h.kind != kind || pos <= 0 || pos > h.count || h.size > |data| then None
      else
        match Walk(data, kind, h.headerSize, h.size, pos - 1)
        case None => None
        case Some(p) => ReadPair(data, kind, p, h.size)
  }

  function ReadPair(data: Bytes, kind: Kind, p: nat, limit: nat): Option<(Key, Got)>
    requires limit <= |data|
  {
    var v := SkipKey(data, kind, p, limit);
    if v >= limit then None
    else
      match GetValue(data, v, limit)
      case None => None
      case Some(got) => Some((ReadKey(data, kind, p, limit), got))
  }

  /** The container is at the start of the data. */
  predicate Holds(data: Bytes, c: Container) { Good(c) && At(data, 0, Encode(c)) }

  lemma HoldsItems(data: Bytes, c: Container)
    requires Holds(data, c)
    ensures ReadHead(data, 0, |data|) == Some(Head(c.kind, |c.items|, |Encode(c)|, HeaderSize(c)))
    ensures ItemsAt(data, HeaderSize(c), |Encode(c)|, c) && Pos(c, HeaderSize(c), 0) == HeaderSize(c)
  {
    hide Encode, ReadHead, ReadSize, HeaderSize;
    HeadAt(data, 0, |data|, c);
    EncodeSplit(c);
  }

  lemma ListItem(data: Bytes, h: nat, limit: nat, c: Container, i: nat)
    requires ItemsAt(data, h, limit, c) && i < |c.items| && c.kind == List
    ensures GetValue(data, Pos(c, h, i), limit) == Some(Seen(c.items[i].v))
  {
    hide Encode, ReadKey, Advance, GetValue, Seen, ValueBytes, GoodValue, GoodKey;
    ItemAt(data, h, limit, c, i);
  }

  /** Every list reads back by position to the values added, and to nothing elsewhere. */
  lemma ListReadsBack(data: Bytes, c: Container, pos: int)
    requires Holds(data, c) && c.kind == List
    ensures ListGet(data, pos) == if 1 <= pos <= |c.items| then Some(Seen(c.items[pos - 1].v)) else None
  {
    hide Encode, HeaderSize, ReadHead, Walk, GetValue, Seen;
    HoldsItems(data, c);
    if 1 <= pos <= |c.items| {
      WalkItems(data, HeaderSize(c), |Encode(c)|, c, 0, pos - 1);
      ListItem(data, HeaderSize(c), |Encode(c)|, c, pos - 1);
    }
  }

  lemma PairItem(data: Bytes, h: nat, limit: nat, c: Container, i: nat)
    requires ItemsAt(data, h, limit, c) && i < |c.items|
    ensures ReadPair(data, c.kind, Pos(c, h, i), limit) == Some((Heard(c.items[i].key), Seen(c.items[i].v)))
  {
    hide Encode, SkipKey, ReadKey, Advance, GetValue, Seen, ValueBytes, GoodValue, GoodKey;
    ItemAt(data, h, limit, c, i);
  }

  /** Every map or object reads back by position to the keys and values added. */
  lemma PairsReadBack(data: Bytes, c: Container, pos: int)
    requires Holds(data, c) && c.kind != List
    ensures PairGet(data, c.kind, pos) ==
      if 1 <= pos <= |c.items| then Some((Heard(c.items[pos - 1].key), Seen(c.items[pos - 1].v))) else None
  {
    hide Encode, HeaderSize, ReadHead, Walk, ReadPair, Seen;
    HoldsItems(data, c);
    if 1 <= pos <= |c.items| {
      WalkItems(data, HeaderSize(c), |Encode(c)|, c, 0, pos - 1);
      PairItem(data, HeaderSize(c), |Encode(c)|, c, pos - 1);
    }
  }

  // ---- Reading by key ---------------------------------------------------

  function Fold(b: byte): byte { if 65 <= b <= 90 then b + 32 else b }

  /** strncasecmp finds no difference and the lengths agree. */
  predicate EqualFold(a: Bytes, b: Bytes) {
    |a| == |b| && forall i :: 0 <= i < |a| ==> Fold(a[i]) == Fold(b[i])
  }

  /** Ids are compared as numbers, names without regard to case. */
  predicate SameKey(a: Key, b: Key) {
    match a
    case NoKey => false
    case Id(i) => b.Id? && b.id == i
    case Name(n) => b.Name? && EqualFold(n, b.name)
  }

  /** SearchForID and SearchForKey: the position of the value under the key. */
  function Search(data: Bytes, kind: Kind, p: nat, limit: nat, n: nat, key: Key): Option<nat>
    requires limit <= |data|
    decreases n
  {
    if n == 0 then None
    else
      var v := SkipKey(data, kind, p, limit);
      if v >= limit then None
      else if SameKey(ReadKey(data, kind, p, limit), key) then Some(v)
      else
        match Advance(data, v, limit)
        case None => None
        case Some(q) => Search(data, kind, q, limit, n - 1, key)
  }

  /** binn_map_get_value and binn_object_get_value. */
  function KeyedGet(data: Bytes, kind: Kind, key: Key): Option<Got> {
    match ReadHead(data, 0, |data|)
    case None => None
    case Some(h) =>
      if h.kind != kind || h.count == 0 || h.size > |data| then None
      else
        match Search(data, kind, h.headerSize, h.size, h.count, key)
        case None => None
        case Some(p) => GetValue(data, p, h.size)
  }

  /** The first item from `i` on under the key. */
  function IndexOf(items: seq<Item>, key: Key, i: nat): (r: Option<nat>)
    requires i <= |items|
    ensures r.Some? ==> i <= r.value < |items| && SameKey(Heard(items[r.value].key), key)
    ensures forall j :: i <= j < (if r.Some? then r.value else |items|) ==> !SameKey(Heard(items[j].key), key)
    decreases |items| - i
  {
    if i == |items| then None else if SameKey(Heard(items[i].key), key) then Some(i) else IndexOf(items, key, i + 1)
  }

  predicate Finds(data: Bytes, limit: nat, p: Option<nat>, items: seq<Item>, i: Option<nat>)
    requires limit <= |data|
    requires i.Some? ==> i.value < |items|
  {
    (p.None? <==> i.None?) && (p.Some? ==> GetValue(data, p.value, limit) == Some(Seen(items[i.value].v)))
  }

  lemma {:induction false} SearchFinds(data: Bytes, h: nat, limit: nat, c: Container, i: nat, key: Key)
    requires ItemsAt(data, h, limit, c) && i <= |c.items|
    ensures Finds(data, limit, Search(data, c.kind, Pos(c, h, i), limit, |c.items| - i, key), c.items, IndexOf(c.items, key, i))
    decreases |c.items| - i
  {
    hide Encode, SkipKey, ReadKey, Advance, GetValue, Seen, ValueBytes, GoodValue, GoodKey, SameKey;
    if i < |c.items| {
      ItemAt(data, h, limit, c, i);
      SearchFinds(data, h, limit, c, i + 1, key);
    }
  }

  /** Every map or object gives back, under a key, the value of the first item with that key, and nothing
      if there is none. */
  lemma KeysReadBack(data: Bytes, c: Container, key: Key)
    requires Holds(data, c) && c.kind != List
    ensures KeyedGet(data, c.kind, key) ==
      match IndexOf(c.items, key, 0)
      case None => None
      case Some(i) => Some(Seen(c.items[i].v))
  {
    hide Encode, HeaderSize, ReadHead, Search, GetValue, Seen;
    HoldsItems(data, c);
    SearchFinds(data, HeaderSize(c), |Encode(c)|, c, 0, key);
  }

  /** No item has the key a reader sees of an earlier one. */
  predicate DistinctKeys(items: seq<Item>) {
    forall i, j :: 0 <= i < j < |items| ==> !SameKey(Heard(items[i].key), items[j].key)
  }

  /** With distinct keys a map or object is a finite map: every item is found under its own key, if and only if
      that key is not INT_MIN, under which nothing is ever found. */
  lemma FoundUnderOwnKey(data: Bytes, c: Container, i: nat)
    requires Holds(data, c) && c.kind != List && DistinctKeys(c.items) && i < |c.items|
    ensures KeyedGet(data, c.kind, c.items[i].key) ==
      if c.items[i].key == Id(INT_MIN) then None else Some(Seen(c.items[i].v))
  {
    hide KeyedGet, Encode, Seen;
    var key := c.items[i].key;
    KeysReadBack(data, c, key);
    if key == Id(INT_MIN) {
      assert forall j :: 0 <= j < |c.items| ==> !SameKey(Heard(c.items[j].key), key);
    } else {
      OwnKey(c, i);
      var found := IndexOf(c.items, key, 0);
      assert found == Some(i);
    }
  }

  lemma OwnKey(c: Container, i: nat)
    requires Good(c) && c.kind != List && i < |c.items| && c.items[i].key != Id(INT_MIN)
    ensures SameKey(Heard(c.items[i].key), c.items[i].key)
  {
    hide Encode, GoodValue;
  }
}
