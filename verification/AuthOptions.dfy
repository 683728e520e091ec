/**
 Passing key options between processes: sshauthopt_serialise and
 sshauthopt_deserialise of auth-options.c over the wire types of section 5 of
 RFC 4251.
 */
module AuthOptions {
  import opened Octets
  import opened Options
  import opened Wire

  const INT_MAX: nat := 0x7FFF_FFFF

  /** struct sshauthopt. */
  datatype Opts = Opts(
    permitPortForwarding: int, permitAgentForwarding: int, permitX11Forwarding: int, permitPty: int,
    permitUserRc: int, restricted: int, certAuthority: int, noRequireUserPresence: int, requireVerify: int,
    validBefore: nat, forceTunDevice: int,
    certPrincipals: Option<CString>, forceCommand: Option<CString>,
    requiredFromHostCert: Option<CString>, requiredFromHostKeys: Option<CString>,
    env: seq<CString>, permitopen: seq<CString>, permitlisten: seq<CString>)

  /** A conversion to an unsigned byte. */
  function U8(n: int): (b: Bytes)
    ensures |b| == 1
  {
    [n % 256]
  }

  // ---- Nullable strings and arrays --------------------------------------

  function Nullable(s: Option<CString>): Bytes {
    if s.None? then U8(1) + Str([]) else U8(0) + Str(s.value)
  }

  function GetNullable(b: Bytes): Option<(Option<CString>, Bytes)> {
    match GetNumber(b, 1)
    case None => None
    case Some((flag, more)) =>
      match GetCString(more)
      case None => None
      case Some((s, rest)) => Some((if flag != 0 then None else Some(s), rest))
  }

  lemma GetByteBack(n: int, rest: Bytes)
    ensures GetNumber(U8(n) + rest, 1) == Some((n % 256, rest))
  {
    assert BE(n % 256, 1) == U8(n);
    Widths();
    GetNumberBack(n % 256, 1, rest);
  }

  lemma GetNullableBack(s: Option<CString>, rest: Bytes)
    requires s.Some? ==> |s.value| <= SSHBUF_SIZE_MAX - 4
    ensures GetNullable(Nullable(s) + rest) == Some((s, rest))
  {
    hide U8, Str, GetNumber, GetCString;
    var flag, text := if s.None? then 1 else 0, if s.None? then [] else s.value;
    assert Nullable(s) + rest == U8(flag) + (Str(text) + rest);
    GetByteBack(flag, Str(text) + rest);
    GetCStringBack(text, rest);
  }

  function Strings(ss: seq<CString>): Bytes { if ss == [] then [] else Str(ss[0]) + Strings(ss[1..]) }

  function GetStrings(b: Bytes, n: nat): Option<seq<CString>> {
    if n == 0 then Some([])
    else
      match GetCString(b)
      case None => None
      case Some((s, rest)) =>
        match GetStrings(rest, n - 1)
        case None => None
        case Some(ss) => Some([s] + ss)
  }

  /** serialise_array: the count, then the strings as one string. */
  function List(ss: seq<CString>): Bytes { BE(|ss|, 4) + Str(Strings(ss)) }

  function GetList(b: Bytes): Option<(seq<CString>, Bytes)> {
    match GetNumber(b, 4)
    case None => None
    case Some((n, more)) =>
      match GetStr(more)
      case None => None
      case Some((blob, rest)) =>
        if n > INT_MAX then None
        else
          match GetStrings(blob, n)
          case None => None
          case Some(ss) => Some((ss, rest))
  }

  predicate ListFits(ss: seq<CString>) {
    && |ss| <= INT_MAX && |Strings(ss)| <= SSHBUF_SIZE_MAX - 4
    && forall i :: 0 <= i < |ss| ==> |ss[i]| <= SSHBUF_SIZE_MAX - 4
  }

  lemma {:induction false} GetStringsBack(ss: seq<CString>, rest: Bytes)
    requires forall i :: 0 <= i < |ss| ==> |ss[i]| <= SSHBUF_SIZE_MAX - 4
    ensures GetStrings(Strings(ss) + rest, |ss|) == Some(ss)
  {
    hide Str, GetCString;
    if ss != [] {
      assert Strings(ss) + rest == Str(ss[0]) + (Strings(ss[1..]) + rest);
      GetCStringBack(ss[0], Strings(ss[1..]) + rest);
      GetStringsBack(ss[1..], rest);
      assert [ss[0]] + ss[1..] == ss;
    }
  }

  lemma GetListBack(ss: seq<CString>, rest: Bytes)
    requires ListFits(ss)
    ensures GetList(List(ss) + rest) == Some((ss, rest))
  {
    hide Str, GetStr, GetNumber, GetStrings, Strings;
    Widths();
    assert List(ss) + rest == BE(|ss|, 4) + (Str(Strings(ss)) + rest);
    GetNumberBack(|ss|, 4, Str(Strings(ss)) + rest);
    GetStrBack(Strings(ss), rest);
    GetStringsBack(ss, []);
    assert Strings(ss) + [] == Strings(ss);
  }

  // ---- Sizes ------------------------------------------------------------

  lemma {:induction false} StringsSize(ss: seq<CString>, k: nat)
    requires k <= |ss|
    ensures 4 * |ss| <= |Strings(ss)| && |Strings(ss[..k])| <= |Strings(ss)|
    ensures forall i :: 0 <= i < |ss| ==> |ss[i]| + 4 <= |Strings(ss)|
  {
    if ss != [] {
      if k > 0 {
        StringsSize(ss[1..], k - 1);
        assert ss[..k][0] == ss[0] && ss[..k][1..] == ss[1..][..k - 1];
      } else {
        StringsSize(ss[1..], 0);
      }
      assert forall i :: 1 <= i < |ss| ==> ss[i] == ss[1..][i - 1];
    }
  }

  /** An array that fits a buffer is within the limits of its parts. */
  lemma ListSize(ss: seq<CString>)
    ensures |List(ss)| == 8 + |Strings(ss)|
    ensures |List(ss)| <= SSHBUF_SIZE_MAX ==> ListFits(ss)
  {
    hide Strings;
    StringsSize(ss, 0);
  }

  lemma {:induction false} FlagsSize(fs: seq<int>)
    ensures |Flags(fs)| == |fs|
  {
    if fs != [] {
      FlagsSize(fs[1..]);
    }
  }

  lemma {:induction false} NullablesSize(ss: seq<Option<CString>>, k: nat)
    requires k <= |ss|
    ensures |Nullables(ss[..k])| <= |Nullables(ss)| && (|Nullables(ss)| <= SSHBUF_SIZE_MAX ==> StringsFit(ss))
  {
    hide Nullable;
    if ss != [] {
      NullableSize(ss[0]);
      if k > 0 {
        NullablesSize(ss[1..], k - 1);
        assert ss[..k][0] == ss[0] && ss[..k][1..] == ss[1..][..k - 1];
      } else {
        NullablesSize(ss[1..], 0);
      }
      assert forall i :: 1 <= i < |ss| ==> ss[i] == ss[1..][i - 1];
    }
  }

  lemma NullableSize(s: Option<CString>)
    ensures |Nullable(s)| == 5 + if s.None? then 0 else |s.value|
  {
  }

  lemma {:induction false} ListsSize(ls: seq<seq<CString>>, k: nat)
    requires k <= |ls|
    ensures |Lists(ls[..k])| <= |Lists(ls)|
    ensures |Lists(ls)| <= SSHBUF_SIZE_MAX ==> forall i :: 0 <= i < |ls| ==> ListFits(ls[i])
  {
    hide List, ListFits;
    if ls != [] {
      ListSize(ls[0]);
      if k > 0 {
        ListsSize(ls[1..], k - 1);
        assert ls[..k][0] == ls[0] && ls[..k][1..] == ls[1..][..k - 1];
      } else {
        ListsSize(ls[1..], 0);
      }
      assert forall i :: 1 <= i < |ls| ==> ls[i] == ls[1..][i - 1];
    }
  }

  // ---- The record -------------------------------------------------------

  /** The flag options in the order of the wire. */
  function FlagsOf(o: Opts): seq<int> {
    [o.permitPortForwarding, o.permitAgentForwarding, o.permitX11Forwarding, o.permitPty, o.permitUserRc,
     o.restricted, o.certAuthority, o.noRequireUserPresence, o.requireVerify]
  }

  function StringsOf(o: Opts): seq<Option<CString>> {
    [o.certPrincipals, o.forceCommand, o.requiredFromHostCert, o.requiredFromHostKeys]
  }

  function ListsOf(o: Opts): seq<seq<CString>> { [o.env, o.permitopen, o.permitlisten] }

  function Flags(fs: seq<int>): Bytes { if fs == [] then [] else U8(fs[0]) + Flags(fs[1..]) }

  function GetFlags(b: Bytes, n: nat): (r: Option<(seq<int>, Bytes)>)
    ensures r.Some? ==> |r.value.0| == n
  {
    if n == 0 then Some(([], b))
    else
      match GetNumber(b, 1)
      case None => None
      case Some((f, more)) =>
        match GetFlags(more, n - 1)
        case None => None
        case Some((fs, rest)) => Some(([f] + fs, rest))
  }

  function Nullables(ss: seq<Option<CString>>): Bytes {
    if ss == [] then [] else Nullable(ss[0]) + Nullables(ss[1..])
  }

  function GetNullables(b: Bytes, n: nat): (r: Option<(seq<Option<CString>>, Bytes)>)
    ensures r.Some? ==> |r.value.0| == n
  {
    if n == 0 then Some(([], b))
    else
      match GetNullable(b)
      case None => None
      case Some((s, more)) =>
        match GetNullables(more, n - 1)
        case None => None
        case Some((ss, rest)) => Some(([s] + ss, rest))
  }

  function Lists(ls: seq<seq<CString>>): Bytes { if ls == [] then [] else List(ls[0]) + Lists(ls[1..]) }

  function GetLists(b: Bytes, n: nat): (r: Option<(seq<seq<CString>>, Bytes)>)
    ensures r.Some? ==> |r.value.0| == n
  {
    if n == 0 then Some(([], b))
    else
      match GetList(b)
      case None => None
      case Some((l, more)) =>
        match GetLists(more, n - 1)
        case None => None
        case Some((ls, rest)) => Some(([l] + ls, rest))
  }

  function Tun(n: int): Bytes { U8(if n == -1 then 1 else 0) + BE(if n < 0 then 0 else n, 4) }

  function GetTun(b: Bytes): Option<(int, Bytes)> {
    match GetNumber(b, 1)
    case None => None
    case Some((f, more)) =>
      match GetNumber(more, 4)
      case None => None
      case Some((n, rest)) => Some((if f != 0 then -1 else if n > INT_MAX then n - 0x1_0000_0000 else n, rest))
  }

  /** What sshauthopt_serialise writes. */
  function Encode(o: Opts): Bytes {
    Flags(FlagsOf(o)) + (BE(o.validBefore, 8) + (Tun(o.forceTunDevice) + (Nullables(StringsOf(o)) + Lists(ListsOf(o)))))
  }

  function Build(f: seq<int>, before: nat, tun: int, s: seq<Option<CString>>, l: seq<seq<CString>>): Opts
    requires |f| == 9 && |s| == 4 && |l| == 3
  {
    Opts(f[0], f[1], f[2], f[3], f[4], f[5], f[6], f[7], f[8], before, tun, s[0], s[1], s[2], s[3], l[0], l[1], l[2])
  }

  /** What sshauthopt_deserialise reads, and what it leaves. */
  function Decode(b: Bytes): Option<(Opts, Bytes)> {
    match GetFlags(b, 9)
    case None => None
    case Some((f, b1)) =>
      match GetNumber(b1, 8)
      case None => None
      case Some((before, b2)) =>
        match GetTun(b2)
        case None => None
        case Some((tun, b3)) =>
          match GetNullables(b3, 4)
          case None => None
          case Some((s, b4)) =>
            match GetLists(b4, 3)
            case None => None
            case Some((l, rest)) => Some((Build(f, before, tun, s, l), rest))
  }

  /** The C types of the fields, and sizes the buffer functions accept. */
  predicate Fits(o: Opts) {
    && o.validBefore < Pow256(8) && -0x8000_0000 <= o.forceTunDevice <= INT_MAX
    && StringsFit(StringsOf(o))
    && (forall i :: 0 <= i < 3 ==> ListFits(ListsOf(o)[i]))
  }

  function AsBytes(fs: seq<int>): seq<int> { seq(|fs|, i requires 0 <= i < |fs| => fs[i] % 256) }

  /** What the wire can carry of a record: flags as bytes, and no tunnel number below -1. */
  function Carried(o: Opts): Opts {
    Build(AsBytes(FlagsOf(o)), o.validBefore,
          if o.forceTunDevice < -1 then 0 else o.forceTunDevice, StringsOf(o), ListsOf(o))
  }

  lemma {:induction false} GetFlagsBack(fs: seq<int>, rest: Bytes)
    ensures GetFlags(Flags(fs) + rest, |fs|) == Some((AsBytes(fs), rest))
  {
    hide U8, GetNumber;
    if fs == [] {
      assert Flags(fs) + rest == rest;
    } else {
      assert Flags(fs) + rest == U8(fs[0]) + (Flags(fs[1..]) + rest);
      GetByteBack(fs[0], Flags(fs[1..]) + rest);
      GetFlagsBack(fs[1..], rest);
      assert [fs[0] % 256] + AsBytes(fs[1..]) == AsBytes(fs);
    }
  }

  lemma {:induction false} GetNullablesBack(ss: seq<Option<CString>>, rest: Bytes)
    requires forall i :: 0 <= i < |ss| && ss[i].Some? ==> |ss[i].value| <= SSHBUF_SIZE_MAX - 4
    ensures GetNullables(Nullables(ss) + rest, |ss|) == Some((ss, rest))
  {
    hide Nullable, GetNullable;
    if ss == [] {
      assert Nullables(ss) + rest == rest;
    } else {
      assert Nullables(ss) + rest == Nullable(ss[0]) + (Nullables(ss[1..]) + rest);
      GetNullableBack(ss[0], Nullables(ss[1..]) + rest);
      GetNullablesBack(ss[1..], rest);
      assert [ss[0]] + ss[1..] == ss;
    }
  }

  lemma {:induction false} GetListsBack(ls: seq<seq<CString>>, rest: Bytes)
    requires forall i :: 0 <= i < |ls| ==> ListFits(ls[i])
    ensures GetLists(Lists(ls) + rest, |ls|) == Some((ls, rest))
  {
    hide List, GetList, ListFits;
    if ls == [] {
      assert Lists(ls) + rest == rest;
    } else {
      assert Lists(ls) + rest == List(ls[0]) + (Lists(ls[1..]) + rest);
      GetListBack(ls[0], Lists(ls[1..]) + rest);
      GetListsBack(ls[1..], rest);
      assert [ls[0]] + ls[1..] == ls;
    }
  }

  lemma GetTunBack(n: int, rest: Bytes)
    requires -0x8000_0000 <= n <= INT_MAX
    ensures GetTun(Tun(n) + rest) == Some((if n < -1 then 0 else n, rest))
  {
    hide U8, BE, GetNumber;
    Widths();
    var flag, m := if n == -1 then 1 else 0, if n < 0 then 0 else n;
    assert Tun(n) + rest == U8(flag) + (BE(m, 4) + rest);
    GetByteBack(flag, BE(m, 4) + rest);
    GetNumberBack(m, 4, rest);
  }

  lemma Regroup(a: Bytes, b: Bytes, c: Bytes, d: Bytes, e: Bytes, rest: Bytes)
    ensures (a + (b + (c + (d + e)))) + rest == a + (b + (c + (d + (e + rest))))
  {
  }

  /** Deserialising what was serialised, followed by anything, gives what the wire carries of the record and
      leaves exactly what followed. */
  lemma DecodeEncode(o: Opts, rest: Bytes)
    requires Fits(o)
    ensures Decode(Encode(o) + rest) == Some((Carried(o), rest))
  {
    hide Flags, Tun, Nullables, Lists, BE, GetFlags, GetTun, GetNullables, GetLists, GetNumber, ListFits;
    var f, s, l := FlagsOf(o), StringsOf(o), ListsOf(o);
    Regroup(Flags(f), BE(o.validBefore, 8), Tun(o.forceTunDevice), Nullables(s), Lists(l), rest);
    GetFlagsBack(f, BE(o.validBefore, 8) + (Tun(o.forceTunDevice) + (Nullables(s) + (Lists(l) + rest))));
    GetNumberBack(o.validBefore, 8, Tun(o.forceTunDevice) + (Nullables(s) + (Lists(l) + rest)));
    GetTunBack(o.forceTunDevice, Nullables(s) + (Lists(l) + rest));
    GetNullablesBack(s, Lists(l) + rest);
    GetListsBack(l, rest);
  }

  /** The record comes back equal if and only if its flags fit a byte and the tunnel number is -1 or more. */
  lemma RoundTripExactly(o: Opts, rest: Bytes)
    requires Fits(o)
    ensures Decode(Encode(o) + rest) == Some((o, rest)) <==>
      (forall i :: 0 <= i < 9 ==> 0 <= FlagsOf(o)[i] < 256) && o.forceTunDevice >= -1
  {
    hide Encode, Decode;
    DecodeEncode(o, rest);
    assert forall i :: 0 <= i < 9 ==> FlagsOf(Carried(o))[i] == FlagsOf(o)[i] % 256;
    if Carried(o) == o {
      assert forall i :: 0 <= i < 9 ==> FlagsOf(o)[i] == FlagsOf(o)[i] % 256;
    }
  }

  const PLAIN: Opts := Opts(1, 1, 1, 1, 1, 0, 0, 0, 0, 0, -1, None, None, None, None, [], [], [])

  /** The failing inputs: a flag of 256 is read back as 0, and a tunnel number of -2 as 0. */
  lemma NotCarried(rest: Bytes)
    ensures var flag := PLAIN.(permitPty := 256);
      Decode(Encode(flag) + rest) == Some((PLAIN.(permitPty := 0), rest))
    ensures var tunnel := PLAIN.(forceTunDevice := -2);
      Decode(Encode(tunnel) + rest) == Some((PLAIN.(forceTunDevice := 0), rest))
  {
    hide Encode, Decode, Pow256;
    Widths();
    DecodeEncode(PLAIN.(permitPty := 256), rest);
    DecodeEncode(PLAIN.(forceTunDevice := -2), rest);
  }

  const YES: CString := [121, 101, 115]
  const TRUE: CString := [116, 114, 117, 101]

  /** What is sent to an untrusted receiver. */
  function Redacted(o: Opts): Opts {
    o.(certPrincipals := Some(YES), forceCommand := Some(TRUE), requiredFromHostCert := None,
       requiredFromHostKeys := None, env := [], permitopen := [], permitlisten := [])
  }

  function Sent(o: Opts, untrusted: bool): Opts { if untrusted then Redacted(o) else o }

  // ---- Buffers ----------------------------------------------------------

  lemma {:induction false} StringsAppend(ss: seq<CString>, s: CString)
    ensures Strings(ss + [s]) == Strings(ss) + Str(s)
  {
    hide Str;
    if ss == [] {
      assert ss + [s] == [s] && [s][1..] == [] && Str(s) + [] == Str(s) && [] + Str(s) == Str(s);
    } else {
      assert (ss + [s])[1..] == ss[1..] + [s];
      StringsAppend(ss[1..], s);
    }
  }

  /** A buffer that is appended to and consumed from the front. */
  class Sshbuf {
    var data: Bytes

    constructor (data: Bytes)
      ensures this.data == data
    {
      this.data := data;
    }

    /** sshbuf_put: refused exactly when the buffer would exceed its largest size. */
    method Put(b: Bytes) returns (ok: bool)
      modifies this
      ensures ok == (|old(data)| + |b| <= SSHBUF_SIZE_MAX)
      ensures data == if ok then old(data) + b else old(data)
    {
      if |b| > SSHBUF_SIZE_MAX || SSHBUF_SIZE_MAX - |b| < |data| {
        return false;
      }
      data := data + b;
      return true;
    }

    /** sshbuf_put_string. */
    method PutString(s: Bytes) returns (ok: bool)
      modifies this
      ensures ok == (|old(data)| + |Str(s)| <= SSHBUF_SIZE_MAX)
      ensures data == if ok then old(data) + Str(s) else old(data)
    {
      if |s| > SSHBUF_SIZE_MAX - 4 {
        return false;
      }
      ok := Put(BE(|s|, 4) + s);
    }

    /** sshbuf_get_u8, sshbuf_get_u32 and sshbuf_get_u64. */
    method GetInteger(k: nat) returns (r: Option<nat>)
      modifies this
      ensures r.Some? <==> GetNumber(old(data), k).Some?
      ensures r.Some? ==> GetNumber(old(data), k) == Some((r.value, data))
    {
      if |data| < k {
        return None;
      }
      r := Some(FromBE(data[..k]));
      data := data[k..];
    }

    /** sshbuf_froms: the contents of a string. */
    method GetBlob() returns (r: Option<Bytes>)
      modifies this
      ensures r.Some? <==> GetStr(old(data)).Some?
      ensures r.Some? ==> GetStr(old(data)) == Some((r.value, data))
    {
      if |data| < 4 {
        return None;
      }
      var n := FromBE(data[..4]);
      if n > SSHBUF_SIZE_MAX - 4 || |data| - 4 < n {
        return None;
      }
      r := Some(data[4..][..n]);
      data := data[4..][n..];
    }

    /** sshbuf_get_cstring. */
    method GetText() returns (r: Option<CString>)
      modifies this
      ensures r.Some? <==> GetCString(old(data)).Some?
      ensures r.Some? ==> GetCString(old(data)) == Some((r.value, data))
    {
      hide GetStr;
      var blob := GetBlob();
      if blob.None? {
        return None;
      }
      var s := blob.value;
      if |s| > 0 && 0 in s[..|s| - 1] {
        return None;
      }
      r := Some(if |s| > 0 && s[|s| - 1] == 0 then s[..|s| - 1] else s);
    }

    /** serialise_array. */
    method SerialiseArray(a: seq<CString>) returns (ok: bool)
      modifies this
      ensures ok == (|old(data)| + |List(a)| <= SSHBUF_SIZE_MAX)
      ensures ok ==> data == old(data) + List(a)
    {
      hide Str, Strings, ListFits, BE;
      ListSize(a);
      StringsSize(a, 0);
      if |a| > INT_MAX {
        return false;
      }
      var b := new Sshbuf([]);
      ok := b.PutAll(a);
      if !ok {
        return;
      }
      ok := Put(BE(|a|, 4));
      if !ok {
        return;
      }
      StrSize(b.data);
      ok := PutString(b.data);
      Reassociate(old(data), BE(|a|, 4), Str(b.data));
    }

    /** The loop of serialise_array. */
    method PutAll(a: seq<CString>) returns (ok: bool)
      requires data == []
      modifies this
      ensures ok == (|Strings(a)| <= SSHBUF_SIZE_MAX)
      ensures ok ==> data == Strings(a)
    {
      hide Str;
      var i := 0;
      while i < |a|
        invariant 0 <= i <= |a| && data == Strings(a[..i]) && |data| <= SSHBUF_SIZE_MAX
      {
        StringsAppend(a[..i], a[i]);
        assert a[..i + 1] == a[..i] + [a[i]];
        StringsSize(a, i + 1);
        ok := PutString(a[i]);
        if !ok {
          return;
        }
        i := i + 1;
      }
      assert a[..i] == a;
      ok := true;
    }

    /** deserialise_array. */
    method DeserialiseArray() returns (r: Option<seq<CString>>)
      modifies this
      ensures r.Some? <==> GetList(old(data)).Some?
      ensures r.Some? ==> GetList(old(data)) == Some((r.value, data))
    {
      hide GetNumber, GetStr, GetCString;
      var n := GetInteger(4);
      if n.None? {
        return None;
      }
      var blob := GetBlob();
      if blob.None? || n.value > INT_MAX {
        return None;
      }
      var b := new Sshbuf(blob.value);
      var a: seq<CString>, i := [], 0;
      ghost var now := data;
      assert GetStrings(b.data, n.value).Some? ==> a + GetStrings(b.data, n.value).value == GetStrings(b.data, n.value).value;
      while i < n.value
        invariant 0 <= i <= n.value && data == now
        invariant GetStrings(blob.value, n.value) ==
          match GetStrings(b.data, n.value - i)
          case None => None
          case Some(more) => Some(a + more)
        modifies b
      {
        var s := b.GetText();
        if s.None? {
          return None;
        }
        assert forall more: seq<CString> :: a + ([s.value] + more) == a + [s.value] + more;
        a, i := a + [s.value], i + 1;
      }
      assert a + [] == a;
      return Some(a);
    }

    /** serialise_nullable_string. */
    method SerialiseNullable(s: Option<CString>) returns (ok: bool)
      modifies this
      ensures ok == (|old(data)| + |Nullable(s)| <= SSHBUF_SIZE_MAX)
      ensures ok ==> data == old(data) + Nullable(s)
    {
      hide Str;
      var text := if s.None? then [] else s.value;
      StrSize(text);
      ok := Put(U8(if s.None? then 1 else 0));
      if ok {
        ok := PutString(text);
        assert ok ==> data == old(data) + Nullable(s);
      }
    }

    /** deserialise_nullable_string. */
    method DeserialiseNullable() returns (ok: bool, s: Option<CString>)
      modifies this
      ensures ok <==> GetNullable(old(data)).Some?
      ensures ok ==> GetNullable(old(data)) == Some((s, data))
    {
      hide GetCString, GetNumber;
      s := None;
      var flag := GetInteger(1);
      if flag.None? {
        return false, None;
      }
      var text := GetText();
      ok := text.Some?;
      if ok && flag.value == 0 {
        s := text;
      }
    }

    /** Writes flag options. */
    method SerialiseFlags(fs: seq<int>) returns (ok: bool)
      requires |data| <= SSHBUF_SIZE_MAX
      modifies this
      ensures ok == (|old(data)| + |Flags(fs)| <= SSHBUF_SIZE_MAX)
      ensures ok ==> data == old(data) + Flags(fs)
    {
      hide U8;
      FlagsSize(fs);
      assert fs[..0] == [] && data + [] == data;
      var i := 0;
      while i < |fs|
        invariant 0 <= i <= |fs| && data == old(data) + Flags(fs[..i]) && |data| <= SSHBUF_SIZE_MAX
      {
        FlagsAppend(fs[..i], fs[i]);
        assert fs[..i + 1] == fs[..i] + [fs[i]];
        FlagsSize(fs[..i]);
        ok := Put(U8(fs[i]));
        if !ok {
          return;
        }
        i := i + 1;
      }
      assert fs[..i] == fs;
      ok := true;
    }

    /** Writes nullable strings. */
    method SerialiseStrings(ss: seq<Option<CString>>) returns (ok: bool)
      requires |data| <= SSHBUF_SIZE_MAX
      modifies this
      ensures ok == (|old(data)| + |Nullables(ss)| <= SSHBUF_SIZE_MAX)
      ensures ok ==> data == old(data) + Nullables(ss)
    {
      hide Nullable;
      assert ss[..0] == [] && data + [] == data;
      var i := 0;
      while i < |ss|
        invariant 0 <= i <= |ss| && data == old(data) + Nullables(ss[..i]) && |data| <= SSHBUF_SIZE_MAX
      {
        NullablesAppend(ss[..i], ss[i]);
        assert ss[..i + 1] == ss[..i] + [ss[i]];
        NullablesSize(ss, i + 1);
        ok := SerialiseNullable(ss[i]);
        if !ok {
          return;
        }
        i := i + 1;
      }
      assert ss[..i] == ss;
      ok := true;
    }

    /** Writes arrays. */
    method SerialiseLists(ls: seq<seq<CString>>) returns (ok: bool)
      requires |data| <= SSHBUF_SIZE_MAX
      modifies this
      ensures ok == (|old(data)| + |Lists(ls)| <= SSHBUF_SIZE_MAX)
      ensures ok ==> data == old(data) + Lists(ls)
    {
      hide List;
      assert ls[..0] == [] && data + [] == data;
      var i := 0;
      while i < |ls|
        invariant 0 <= i <= |ls| && data == old(data) + Lists(ls[..i]) && |data| <= SSHBUF_SIZE_MAX
      {
        ListsAppend(ls[..i], ls[i]);
        assert ls[..i + 1] == ls[..i] + [ls[i]];
        ListsSize(ls, i + 1);
        ok := SerialiseArray(ls[i]);
        if !ok {
          return;
        }
        i := i + 1;
      }
      assert ls[..i] == ls;
      ok := true;
    }

    /** Writes the options in the order of the wire. */
    method SerialiseFields(fs: seq<int>, before: nat, tun: int, ss: seq<Option<CString>>, ls: seq<seq<CString>>)
      returns (ok: bool)
      requires |data| <= SSHBUF_SIZE_MAX
      modifies this
      ensures var all := Flags(fs) + (BE(before, 8) + (Tun(tun) + (Nullables(ss) + Lists(ls))));
        ok == (|old(data)| + |all| <= SSHBUF_SIZE_MAX) && (ok ==> data == old(data) + all)
    {
      hide Flags, Nullables, Lists, BE, Tun;
      ghost var start := data;
      ok := SerialiseFlags(fs);
      if ok {
        ok := Put(BE(before, 8));
      }
      if ok {
        ok := PutTun(tun);
      }
      if ok {
        ok := SerialiseStrings(ss);
      }
      if ok {
        ok := SerialiseLists(ls);
      }
      if ok {
        LeftToRight(start, Flags(fs), BE(before, 8), Tun(tun), Nullables(ss), Lists(ls));
      }
    }

    /** Writes the tunnel number: a flag for none, and the number. */
    method PutTun(tun: int) returns (ok: bool)
      modifies this
      ensures ok == (|old(data)| + |Tun(tun)| <= SSHBUF_SIZE_MAX)
      ensures ok ==> data == old(data) + Tun(tun)
    {
      hide BE;
      ok := Put(U8(if tun == -1 then 1 else 0));
      if ok {
        ok := Put(BE(if tun < 0 then 0 else tun, 4));
        assert ok ==> data == old(data) + Tun(tun);
      }
    }

    /** sshauthopt_serialise: fails exactly when the buffer cannot hold the record. */
    method Serialise(o: Opts, untrusted: bool) returns (ok: bool)
      requires |data| <= SSHBUF_SIZE_MAX
      modifies this
      ensures ok == (|old(data)| + |Encode(Sent(o, untrusted))| <= SSHBUF_SIZE_MAX)
      ensures ok ==> data == old(data) + Encode(Sent(o, untrusted))
    {
      hide Flags, Nullables, Lists, BE, Tun;
      var fs := [o.permitPortForwarding, o.permitAgentForwarding, o.permitX11Forwarding, o.permitPty,
                 o.permitUserRc, o.restricted, o.certAuthority, o.noRequireUserPresence, o.requireVerify];
      var ss := if untrusted then [Some(YES), Some(TRUE), None, None]
                else [o.certPrincipals, o.forceCommand, o.requiredFromHostCert, o.requiredFromHostKeys];
      var ls := if untrusted then [[], [], []] else [o.env, o.permitopen, o.permitlisten];
      ghost var p := Sent(o, untrusted);
      assert fs == FlagsOf(p) && ss == StringsOf(p) && ls == ListsOf(p);
      ok := SerialiseFields(fs, o.validBefore, o.forceTunDevice, ss, ls);
    }

    /** Reads flag options. */
    method DeserialiseFlags(n: nat) returns (r: Option<seq<int>>)
      modifies this
      ensures r.Some? <==> GetFlags(old(data), n).Some?
      ensures r.Some? ==> GetFlags(old(data), n) == Some((r.value, data))
    {
      hide GetNumber;
      var fs: seq<int>, i := [], 0;
      ghost var all := GetFlags(data, n);
      assert all.Some? ==> [] + all.value.0 == all.value.0;
      while i < n
        invariant 0 <= i <= n
        invariant all == match GetFlags(data, n - i) case None => None case Some((more, rest)) => Some((fs + more, rest))
      {
        var f := GetInteger(1);
        if f.None? {
          return None;
        }
        var x: int := f.value;
        assert forall more: seq<int> :: fs + ([x] + more) == fs + [x] + more;
        fs, i := fs + [x], i + 1;
      }
      assert fs + [] == fs;
      return Some(fs);
    }

    /** Reads nullable strings. */
    method DeserialiseStrings(n: nat) returns (r: Option<seq<Option<CString>>>)
      modifies this
      ensures r.Some? <==> GetNullables(old(data), n).Some?
      ensures r.Some? ==> GetNullables(old(data), n) == Some((r.value, data))
    {
      hide GetNullable;
      var ss: seq<Option<CString>>, i := [], 0;
      ghost var all := GetNullables(data, n);
      assert all.Some? ==> [] + all.value.0 == all.value.0;
      while i < n
        invariant 0 <= i <= n
        invariant all == match GetNullables(data, n - i) case None => None case Some((more, rest)) => Some((ss + more, rest))
      {
        var ok, s := DeserialiseNullable();
        if !ok {
          return None;
        }
        assert forall more: seq<Option<CString>> :: ss + ([s] + more) == ss + [s] + more;
        ss, i := ss + [s], i + 1;
      }
      assert ss + [] == ss;
      return Some(ss);
    }

    /** Reads arrays. */
    method DeserialiseLists(n: nat) returns (r: Option<seq<seq<CString>>>)
      modifies this
      ensures r.Some? <==> GetLists(old(data), n).Some?
      ensures r.Some? ==> GetLists(old(data), n) == Some((r.value, data))
    {
      hide GetList;
      var ls: seq<seq<CString>>, i := [], 0;
      ghost var all := GetLists(data, n);
      assert all.Some? ==> [] + all.value.0 == all.value.0;
      while i < n
        invariant 0 <= i <= n
        invariant all == match GetLists(data, n - i) case None => None case Some((more, rest)) => Some((ls + more, rest))
      {
        var l := DeserialiseArray();
        if l.None? {
          return None;
        }
        assert forall more: seq<seq<CString>> :: ls + ([l.value] + more) == ls + [l.value] + more;
        ls, i := ls + [l.value], i + 1;
      }
      assert ls + [] == ls;
      return Some(ls);
    }

    /** sshauthopt_deserialise. */
    method Deserialise() returns (r: Option<Opts>)
      modifies this
      ensures r.Some? <==> Decode(old(data)).Some?
      ensures r.Some? ==> Decode(old(data)) == Some((r.value, data))
    {
      hide GetFlags, GetNumber, GetNullables, GetLists;
      var f := DeserialiseFlags(9);
      if f.None? { return None; }
      var before := GetInteger(8);
      if before.None? { return None; }
      var unset := GetInteger(1);
      if unset.None? { return None; }
      var n := GetInteger(4);
      if n.None? { return None; }
      var tun := if unset.value != 0 then -1 else if n.value > INT_MAX then n.value - 0x1_0000_0000 else n.value;
      var s := DeserialiseStrings(4);
      if s.None? { return None; }
      var l := DeserialiseLists(3);
      if l.None? { return None; }
      var v := f.value;
      return Some(Opts(v[0], v[1], v[2], v[3], v[4], v[5], v[6], v[7], v[8], before.value, tun,
                       s.value[0], s.value[1], s.value[2], s.value[3], l.value[0], l.value[1], l.value[2]));
    }
  }

  lemma Reassociate(a: Bytes, b: Bytes, c: Bytes)
    ensures a + b + c == a + (b + c)
  {
  }

  lemma StrSize(s: Bytes)
    ensures |Str(s)| == 4 + |s|
  {
  }

  /** What a buffer can hold of a record's encoding meets the limits of its readers. */
  lemma EncodedFits(o: Opts)
    requires o.validBefore < Pow256(8) && -0x8000_0000 <= o.forceTunDevice <= INT_MAX
    requires |Encode(o)| <= SSHBUF_SIZE_MAX
    ensures Fits(o)
  {
    hide Flags, Nullables, Lists, BE, Tun, Pow256, ListFits, StringsFit;
    NullablesSize(StringsOf(o), 0);
    ListsSize(ListsOf(o), 0);
  }

  /** A record written to an empty buffer and read from it: refused exactly when it is too large, and otherwise
      arrives as what the wire carries of what is sent, with nothing left over. */
  method Pass(o: Opts, untrusted: bool) returns (ok: bool, r: Option<Opts>)
    requires o.validBefore < Pow256(8) && -0x8000_0000 <= o.forceTunDevice <= INT_MAX
    ensures ok == (|Encode(Sent(o, untrusted))| <= SSHBUF_SIZE_MAX)
    ensures ok ==> r == Some(Carried(Sent(o, untrusted)))
  {
    hide Encode, Decode, Carried, Fits, Pow256;
    var b := new Sshbuf([]);
    r := None;
    ok := b.Serialise(o, untrusted);
    if ok {
      EncodedFits(Sent(o, untrusted));
      DecodeEncode(Sent(o, untrusted), []);
      assert b.data == Encode(Sent(o, untrusted)) + [];
      r := b.Deserialise();
    }
  }

  lemma LeftToRight(start: Bytes, a: Bytes, b: Bytes, c: Bytes, d: Bytes, e: Bytes)
    ensures start + a + b + c + d + e == start + (a + (b + (c + (d + e))))
  {
  }

  predicate StringsFit(ss: seq<Option<CString>>) {
    forall i :: 0 <= i < |ss| ==> (ss[i].Some? ==> |ss[i].value| <= SSHBUF_SIZE_MAX - 4)
  }

  lemma {:induction false} FlagsAppend(fs: seq<int>, f: int)
    ensures Flags(fs + [f]) == Flags(fs) + U8(f)
  {
    hide U8;
    if fs == [] {
      assert fs + [f] == [f] && [f][1..] == [] && U8(f) + [] == U8(f) && [] + U8(f) == U8(f);
    } else {
      assert (fs + [f])[1..] == fs[1..] + [f];
      FlagsAppend(fs[1..], f);
    }
  }

  lemma {:induction false} NullablesAppend(ss: seq<Option<CString>>, s: Option<CString>)
    ensures Nullables(ss + [s]) == Nullables(ss) + Nullable(s)
  {
    hide Nullable;
    if ss == [] {
      assert ss + [s] == [s] && [s][1..] == [] && Nullable(s) + [] == Nullable(s) && [] + Nullable(s) == Nullable(s);
    } else {
      assert (ss + [s])[1..] == ss[1..] + [s];
      NullablesAppend(ss[1..], s);
    }
  }

  lemma {:induction false} ListsAppend(ls: seq<seq<CString>>, l: seq<CString>)
    ensures Lists(ls + [l]) == Lists(ls) + List(l)
  {
    hide List;
    if ls == [] {
      assert ls + [l] == [l] && [l][1..] == [] && List(l) + [] == List(l) && [] + List(l) == List(l);
    } else {
      assert (ls + [l])[1..] == ls[1..] + [l];
      ListsAppend(ls[1..], l);
    }
  }
}
