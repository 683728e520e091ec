/**
 AuthenticationMethods lists. auth2.c edits them as comma-separated strings of
 method[:submethod] entries; here that editing is shown to be what it means for
 the sequence of entries.
 */
module MethodLists {
  import opened Options

  datatype Match = MatchNone | MatchMethod | MatchBoth | MatchPartial

  // ---- Entries ----------------------------------------------------------

  /** The text up to the first `sep`. */
  function Upto(s: string, sep: char): (t: string)
    ensures sep !in t && t <= s && (|t| < |s| ==> s[|t|] == sep)
  {
    if s == "" || s[0] == sep then "" else [s[0]] + Upto(s[1..], sep)
  }

  function Entries(list: string): (ts: seq<string>)
    ensures |ts| >= 1 && forall i :: 0 <= i < |ts| ==> ',' !in ts[i]
    decreases |list|
  {
    var t := Upto(list, ',');
    if |t| == |list| then [t] else [t] + Entries(list[|t| + 1..])
  }

  function Join(ts: seq<string>): string {
    if ts == [] then "" else if |ts| == 1 then ts[0] else ts[0] + "," + Join(ts[1..])
  }

  lemma JoinCons(t: string, ts: seq<string>)
    ensures Join([t] + ts) == if ts == [] then t else t + "," + Join(ts)
  {
    assert ([t] + ts)[1..] == ts;
  }

  lemma SplitAtComma(list: string, n: nat)
    requires n < |list| && list[n] == ','
    ensures list == list[..n] + "," + list[n + 1..]
  {
  }

  lemma {:induction false} JoinEntries(list: string)
    ensures Join(Entries(list)) == list
    decreases |list|
  {
    hide Join, Upto;
    var t := Upto(list, ',');
    if |t| < |list| {
      var rest := list[|t| + 1..];
      JoinEntries(rest);
      JoinCons(t, Entries(rest));
      SplitAtComma(list, |t|);
    } else {
      JoinCons(t, []);
      assert [t] + [] == [t];
    }
  }

  lemma {:induction false} UptoIs(t: string, rest: string, sep: char)
    requires sep !in t && (rest == "" || rest[0] == sep)
    ensures Upto(t + rest, sep) == t
  {
    if t == "" {
      assert t + rest == rest;
    } else {
      assert (t + rest)[1..] == t[1..] + rest && (t + rest)[0] == t[0];
      UptoIs(t[1..], rest, sep);
    }
  }

  lemma EntriesCons(t: string, list: string)
    requires ',' !in t
    ensures Entries(t + "," + list) == [t] + Entries(list)
  {
    var whole := t + "," + list;
    UptoIs(t, "," + list, ',');
    assert whole == t + ("," + list) && whole[|t| + 1..] == list;
  }

  /** Splitting undoes joining. */
  lemma {:induction false} EntriesJoin(ts: seq<string>)
    requires ts != [] && forall i :: 0 <= i < |ts| ==> ',' !in ts[i]
    ensures Entries(Join(ts)) == ts
  {
    if |ts| == 1 {
      UptoIs(ts[0], "", ',');
      assert ts[0] + "" == ts[0];
    } else {
      EntriesCons(ts[0], Join(ts[1..]));
      EntriesJoin(ts[1..]);
    }
  }

  /** How an entry answers a method and submethod: the meaning of list_starts_with. */
  function EntryMatch(t: string, name: string, sub: Option<string>): Match {
    if t == name then MatchMethod
    else if name + ":" <= t then
      if sub.None? then MatchPartial
      else if t == name + ":" + sub.value then MatchBoth
      else MatchNone
    else MatchNone
  }

  // ---- The string code --------------------------------------------------

  predicate EndsAt(s: string, p: nat) { p >= |s| || s[p] == ',' }

  /** list_starts_with. */
  function ListStartsWith(methods: string, name: string, sub: Option<string>): Match {
    if !(name <= methods) then MatchNone
    else
      var p := |name|;
      if p < |methods| && methods[p] == ':' then
        if sub.None? then MatchPartial
        else if sub.value <= methods[p + 1..] && EndsAt(methods, p + 1 + |sub.value|) then MatchBoth
        else MatchNone
      else if EndsAt(methods, p) then MatchMethod
      else MatchNone
  }

  /** remove_method: None where it returns 0. */
  function RemoveMethod(methods: string, name: string, sub: Option<string>): Option<string> {
    var found := ListStartsWith(methods, name, sub);
    if found != MatchMethod && found != MatchBoth then None
    else
      var p := |name| + (if sub.Some? && found == MatchBoth then 1 + |sub.value| else 0);
      Some(if p < |methods| && methods[p] == ',' then methods[p + 1..] else methods[p..])
  }

  /** `t` is the first entry of the list. */
  predicate Leads(t: string, list: string) {
    t <= list && ',' !in t && EndsAt(list, |t|)
  }

  /** A text without a comma starts a list exactly when it starts the list's first entry. */
  lemma PrefixOfEntry(list: string, t: string, m: string)
    requires Leads(t, list) && ',' !in m
    ensures m <= list <==> m <= t
    ensures m <= list && EndsAt(list, |m|) <==> m == t
  {
  }

  lemma ColonFollows(list: string, m: string)
    ensures m + ":" <= list <==> m <= list && |m| < |list| && list[|m|] == ':'
  {
  }

  lemma SubmethodFollows(list: string, m: string, u: string)
    requires m + ":" <= list
    ensures m + ":" + u <= list <==> u <= list[|m| + 1..]
  {
    assert list == m + ":" + list[|m| + 1..];
  }

  /** list_starts_with looks at the first entry only, and answers by its name and submethod. */
  lemma StartsWithFirstEntry(list: string, t: string, m: string, sub: Option<string>)
    requires Leads(t, list) && ',' !in m && (sub.Some? ==> ',' !in sub.value)
    ensures ListStartsWith(list, m, sub) == EntryMatch(t, m, sub)
  {
    PrefixOfEntry(list, t, m);
    PrefixOfEntry(list, t, m + ":");
    ColonFollows(list, m);
    if sub.Some? && m + ":" <= list {
      PrefixOfEntry(list, t, m + ":" + sub.value);
      SubmethodFollows(list, m, sub.value);
    }
  }

  /** What follows the first entry and its comma. */
  lemma AfterFirst(list: string)
    ensures var t := Entries(list)[0];
      && t == Upto(list, ',') && Leads(t, list)
      && (|t| < |list| ==> Entries(list)[1..] == Entries(list[|t| + 1..]) && Join(Entries(list)[1..]) == list[|t| + 1..])
      && (|t| == |list| ==> Entries(list)[1..] == [] && list[|t|..] == "")
  {
    var t := Upto(list, ',');
    if |t| < |list| {
      JoinEntries(list[|t| + 1..]);
      assert Entries(list)[1..] == Entries(list[|t| + 1..]);
    }
  }

  /** The length remove_method skips is that of the entry it answers. */
  lemma MatchedLength(t: string, m: string, sub: Option<string>)
    requires EntryMatch(t, m, sub) in {MatchMethod, MatchBoth}
    ensures |t| == |m| + if sub.Some? && EntryMatch(t, m, sub) == MatchBoth then 1 + |sub.value| else 0
  {
  }

  lemma RemoveLeading(list: string, t: string, m: string, sub: Option<string>)
    requires Leads(t, list) && ',' !in m && (sub.Some? ==> ',' !in sub.value)
    ensures RemoveMethod(list, m, sub) ==
      if EntryMatch(t, m, sub) in {MatchMethod, MatchBoth} then Some(if |t| < |list| then list[|t| + 1..] else "") else None
  {
    StartsWithFirstEntry(list, t, m, sub);
    if EntryMatch(t, m, sub) in {MatchMethod, MatchBoth} {
      MatchedLength(t, m, sub);
      assert |t| == |list| ==> list[|t|..] == "";
    }
  }

  /** remove_method takes away the first entry if the method answers it, and leaves the join of the others. */
  lemma RemoveFirstEntry(list: string, m: string, sub: Option<string>)
    requires ',' !in m && (sub.Some? ==> ',' !in sub.value)
    ensures RemoveMethod(list, m, sub) ==
      if EntryMatch(Entries(list)[0], m, sub) in {MatchMethod, MatchBoth} then Some(Join(Entries(list)[1..])) else None
  {
    var t := Entries(list)[0];
    AfterFirst(list);
    RemoveLeading(list, t, m, sub);
  }

  /** What is left of a list without empty entries is the empty string only when no entry is left. */
  lemma LeftoverEmpty(ts: seq<string>)
    requires forall i :: 0 <= i < |ts| ==> ts[i] != ""
    ensures Join(ts) == "" <==> ts == []
  {
  }

  // ---- Validity ---------------------------------------------------------

  /** struct authmethod_cfg. */
  datatype MethodCfg = MethodCfg(name: string, synonym: Option<string>, enabled: bool)

  /** The entry names a method of the table, and an enabled one if asked. */
  predicate Known(table: seq<MethodCfg>, name: string, needEnable: bool) {
    table != [] &&
    if table[0].name == name then needEnable ==> table[0].enabled else Known(table[1..], name, needEnable)
  }

  predicate AllKnown(table: seq<MethodCfg>, ts: seq<string>, needEnable: bool) {
    ts == [] || (Known(table, Upto(ts[0], ':'), needEnable) && AllKnown(table, ts[1..], needEnable))
  }

  predicate ValidList(table: seq<MethodCfg>, list: string, needEnable: bool) {
    list != "" && AllKnown(table, Entries(list), needEnable)
  }

  /** strchr or strsep: the position of `sep`, or the length. */
  method Find(s: string, sep: char) returns (n: nat)
    ensures n <= |s| && s[..n] == Upto(s, sep)
  {
    n := 0;
    while n < |s| && s[n] != sep
      invariant n <= |s| && sep !in s[..n]
    {
      n := n + 1;
    }
    UptoIs(s[..n], s[n..], sep);
    assert s == s[..n] + s[n..];
  }

  method LookupEnabled(table: seq<MethodCfg>, name: string, needEnable: bool) returns (ok: bool)
    ensures ok == Known(table, name, needEnable)
  {
    var i := 0;
    while i < |table|
      invariant i <= |table| && Known(table, name, needEnable) == Known(table[i..], name, needEnable)
    {
      assert table[i..][0] == table[i] && table[i..][1..] == table[i + 1..];
      if table[i].name == name {
        return !needEnable || table[i].enabled;
      }
      i := i + 1;
    }
    return false;
  }

  /** auth2_methods_valid. */
  method MethodsValid(table: seq<MethodCfg>, list: string, needEnable: bool) returns (ok: bool)
    ensures ok == ValidList(table, list, needEnable)
  {
    hide Upto, Known, Entries, Join;
    if list == "" {
      return false;
    }
    var rest := Some(list);
    while rest.Some?
      invariant ValidList(table, list, needEnable) ==
                (rest.Some? ==> AllKnown(table, Entries(rest.value), needEnable))
      decreases if rest.Some? then |rest.value| + 1 else 0
    {
      var n := Find(rest.value, ',');
      var entry := rest.value[..n];
      var colon := Find(entry, ':');
      var known := LookupEnabled(table, entry[..colon], needEnable);
      AfterFirst(rest.value);
      if !known {
        return false;
      }
      rest := if n < |rest.value| then Some(rest.value[n + 1..]) else None;
    }
    return true;
  }
}
