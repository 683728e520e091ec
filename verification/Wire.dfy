/**
 The wire types of section 5 of RFC 4251 as sshbuf-getput-basic.c reads and writes
 them: numbers, strings, and strings that become C strings.
 */
module Wire {
  import opened Octets
  import opened Options

  const SSHBUF_SIZE_MAX: nat := 0x800_0000

  /** A C string: bytes without a zero. */
  type CString = s: Bytes | 0 !in s witness []

  function Str(s: Bytes): Bytes { BE(|s|, 4) + s }

  function GetNumber(b: Bytes, k: nat): Option<(nat, Bytes)> {
    if |b| < k then None else Some((FromBE(b[..k]), b[k..]))
  }

  function GetStr(b: Bytes): Option<(Bytes, Bytes)> {
    match GetNumber(b, 4)
    case None => None
    case Some((n, rest)) => if n > SSHBUF_SIZE_MAX - 4 || |rest| < n then None else Some((rest[..n], rest[n..]))
  }

  /** sshbuf_get_cstring: a zero is allowed only as the last byte. */
  function GetCString(b: Bytes): Option<(CString, Bytes)> {
    match GetStr(b)
    case None => None
    case Some((s, rest)) =>
      if s == [] then Some(([], rest))
      else if 0 in s[..|s| - 1] then None
      else Some((if s[|s| - 1] == 0 then s[..|s| - 1] else s, rest))
  }

  lemma GetNumberBack(n: nat, k: nat, rest: Bytes)
    requires n < Pow256(k)
    ensures GetNumber(BE(n, k) + rest, k) == Some((n, rest))
  {
    hide BE, FromBE, Pow256;
    var b := BE(n, k) + rest;
    ReadBack(n, k);
    assert b[..k] == BE(n, k) && b[k..] == rest;
  }

  lemma GetStrBack(s: Bytes, rest: Bytes)
    requires |s| <= SSHBUF_SIZE_MAX - 4
    ensures GetStr(Str(s) + rest) == Some((s, rest))
  {
    hide BE, GetNumber;
    Widths();
    assert Str(s) + rest == BE(|s|, 4) + (s + rest);
    GetNumberBack(|s|, 4, s + rest);
    assert (s + rest)[..|s|] == s && (s + rest)[|s|..] == rest;
  }

  lemma GetCStringBack(s: CString, rest: Bytes)
    requires |s| <= SSHBUF_SIZE_MAX - 4
    ensures GetCString(Str(s) + rest) == Some((s, rest))
  {
    hide Str, GetStr;
    GetStrBack(s, rest);
  }
}
