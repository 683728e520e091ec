/**
 Multi-step user authentication of one connection (auth2.c; sections 5 and 5.1
 of RFC 4252). A method run is an event with a result; the state machine decides
 what a success or failure does to the configured method lists and the limits.
 */
module UserAuth {
  import opened Options
  import opened MethodLists

  const MAX_ATTEMPTS: nat := 1024

  /** sshd options: the method table, AuthenticationMethods and MaxAuthTries. */
  datatype Config = Config(table: seq<MethodCfg>, methods: seq<string>, maxTries: nat)

  predicate WellFormed(cfg: Config) {
    && cfg.maxTries >= 1
    && forall i :: 0 <= i < |cfg.table| ==> cfg.table[i].name != "" && ',' !in cfg.table[i].name
  }

  /** AuthenticationMethods is in force; a lone "any" means it is not. */
  predicate Configured(cfg: Config) { cfg.methods != [] && cfg.methods != ["any"] }

  /** A success the server has accepted, and the user it was for. */
  datatype Win = Win(name: string, sub: Option<string>, user: string)

  datatype Phase = Running | Succeeded | Ended

  datatype Auth = Auth(phase: Phase, user: string, service: string, valid: bool, attempt: nat, failures: nat,
                       lists: seq<string>, log: seq<Win>, noneEnabled: bool)

  /** What running a method gives: its verdict, and what it left in the context. */
  datatype Verdict = Verdict(authenticated: bool, postponed: bool, serverFault: bool, rootDenied: bool)

  const NOT_RUN: Verdict := Verdict(false, false, false, false)

  datatype Event =
    | Request(user: string, service: string, name: string, known: bool, v: Verdict)
    | Reply(name: string, sub: Option<string>, named: Option<string>, known: bool, v: Verdict)

  // ---- Method lookup and list set-up ------------------------------------

  /** authmethod_byname: by name or synonym. */
  function ByName(table: seq<MethodCfg>, name: string): (r: Option<MethodCfg>)
    ensures r.Some? ==> r.value in table
  {
    if table == [] then None
    else if table[0].name == name || table[0].synonym == Some(name) then Some(table[0])
    else ByName(table[1..], name)
  }

  predicate AnyStartsWith(lists: seq<string>, name: string, sub: Option<string>) {
    exists i :: 0 <= i < |lists| && ListStartsWith(lists[i], name, sub) != MatchNone
  }

  /** auth2_method_allowed. */
  predicate Allowed(cfg: Config, lists: seq<string>, name: string, sub: Option<string>) {
    Configured(cfg) ==> AnyStartsWith(lists, name, sub)
  }

  /** authmethod_lookup finds a method that may run now. */
  predicate MayRun(cfg: Config, a: Auth, name: string) {
    var m := ByName(cfg.table, name);
    && m.Some? && m.value.enabled && (m.value.name == "none" ==> a.noneEnabled)
    && Allowed(cfg, a.lists, m.value.name, None)
  }

  /** The configured lists that contain no disabled method. */
  function EnabledLists(table: seq<MethodCfg>, lists: seq<string>): seq<string> {
    if lists == [] then []
    else
      var n := |lists| - 1;
      var before := EnabledLists(table, lists[..n]);
      if ValidList(table, lists[n], true) then before + [lists[n]] else before
  }

  // ---- Steps ------------------------------------------------------------

  datatype Updated = Updated(lists: seq<string>, found: bool, done: bool)

  /** auth2_update_methods_lists from list `i` on; it stops at the first list it completes. */
  function UpdateFrom(lists: seq<string>, i: nat, w: Win): Updated
    requires i <= |lists|
    decreases |lists| - i
  {
    if i == |lists| then Updated(lists, false, false)
    else
      match RemoveMethod(lists[i], w.name, w.sub)
      case None => UpdateFrom(lists, i + 1, w)
      case Some(rest) =>
        if rest == "" then Updated(lists[i := rest], true, true)
        else UpdateFrom(lists[i := rest], i + 1, w).(found := true)
  }

  function UpdateLists(lists: seq<string>, w: Win): Updated { UpdateFrom(lists, 0, w) }

  function End(a: Auth): Auth { a.(phase := Ended) }

  /** The failing end of userauth_finish. */
  function Fail(cfg: Config, a: Auth, name: string, partial: bool, v: Verdict): Auth {
    if v.postponed then a
    else
      var counts := !partial && !v.serverFault && (a.attempt > 1 || name != "none");
      var b := a.(failures := a.failures + if counts then 1 else 0);
      if b.failures >= cfg.maxTries then End(b) else b
  }

  /** A success that counts: it may finish, advance or miss the lists. */
  function Accept(cfg: Config, a: Auth, w: Win, v: Verdict): Auth {
    var b := a.(log := a.log + [w]);
    if !Configured(cfg) then b.(phase := Succeeded)
    else
      var u := UpdateLists(a.lists, w);
      if u.done then b.(lists := u.lists, phase := Succeeded)
      else if !u.found then End(b)
      else Fail(cfg, b.(lists := u.lists), w.name, true, v)
  }

  /** userauth_finish. */
  function Finish(cfg: Config, a: Auth, name: string, sub: Option<string>, v: Verdict): Auth {
    if !v.authenticated then Fail(cfg, a, name, false, v)
    else
      var m := ByName(cfg.table, name);
      if !a.valid || v.postponed || m.None? then End(a)
      else if v.rootDenied then Fail(cfg, a, m.value.name, false, v)
      else Accept(cfg, a, Win(m.value.name, sub, a.user), v)
  }

  /** The part of input_userauth_request that sets up or resets the context. */
  function Identify(cfg: Config, a: Auth, e: Event): Auth
    requires e.Request?
  {
    var user := Upto(e.user, ':');
    var b := a.(attempt := a.attempt + 1);
    if a.attempt == 0 || user != a.user || user == "" then
      var deferred := user == "" && (e.name == "gssapi" || e.name == "gssapi-with-mic");
      var c := b.(user := user, service := e.service, valid := e.known && !deferred);
      if e.service != "ssh-connection" then End(c)
      else if a.attempt == 0 && Configured(cfg) then
        var d := c.(lists := EnabledLists(cfg.table, cfg.methods));
        if d.lists == [] then End(d) else d
      else c
    else b
  }

  /** input_userauth_request. */
  function HandleRequest(cfg: Config, a: Auth, e: Event): Auth
    requires e.Request?
  {
    if a.attempt >= MAX_ATTEMPTS then End(a)
    else
      var b := Identify(cfg, a, e);
      if b.phase == Ended || e.service != b.service then End(b)
      else
        var run := MayRun(cfg, b, e.name) && b.failures < cfg.maxTries;
        var c := if run && e.name == "none" then b.(noneEnabled := false) else b;
        Finish(cfg, c, e.name, None, if run then e.v else NOT_RUN)
  }

  /** gssapi_set_username: a context without a user name takes the one the GSSAPI context has, if there is one. */
  function SetUsername(a: Auth, e: Event): Auth
    requires e.Reply?
  {
    if a.user == "" && e.named.Some? && e.named.value != "" then
      a.(user := e.named.value, valid := a.valid || e.known)
    else a
  }

  /** A later reply of a postponed method; GSSAPI may only now name the user. */
  function HandleReply(cfg: Config, a: Auth, e: Event): Auth
    requires e.Reply?
  {
    Finish(cfg, SetUsername(a, e), e.name, e.sub, e.v)
  }

  predicate Possible(a: Auth, e: Event) {
    a.phase == Running && (e.Reply? ==> a.attempt >= 1 && (e.sub.Some? ==> ',' !in e.sub.value))
  }

  function Step(cfg: Config, a: Auth, e: Event): Auth
    requires Possible(a, e)
  {
    if e.Request? then HandleRequest(cfg, a, e) else HandleReply(cfg, a, e)
  }

  // ---- What finishing a list means --------------------------------------

  /** A success answers a list entry. */
  predicate Answers(t: string, w: Win) { EntryMatch(t, w.name, w.sub) in {MatchMethod, MatchBoth} }

  /** The first `j` entries are answered, in order, by some of the first `n` successes. */
  predicate Embeds(ts: seq<string>, j: nat, log: seq<Win>, n: nat)
    requires j <= |ts| && n <= |log|
    decreases n
  {
    j == 0 ||
    (n > 0 && (Embeds(ts, j, log, n - 1) || (Answers(ts[j - 1], log[n - 1]) && Embeds(ts, j - 1, log, n - 1))))
  }

  /** All entries are answered in order, the last one by the last success. */
  predicate Finishes(ts: seq<string>, log: seq<Win>) {
    && ts != [] && log != []
    && Answers(ts[|ts| - 1], log[|log| - 1]) && Embeds(ts, |ts| - 1, log, |log| - 1)
  }

  /** How many entries striking off the first one at each success has removed. */
  function Struck(ts: seq<string>, log: seq<Win>, n: nat): (k: nat)
    requires n <= |log|
    ensures k <= |ts|
  {
    if n == 0 then 0
    else var k := Struck(ts, log, n - 1); if k < |ts| && Answers(ts[k], log[n - 1]) then k + 1 else k
  }

  /** Striking off eagerly loses nothing: a prefix of the list is gone exactly when it can be
      found in the successes at all. */
  lemma {:induction false} EagerIsEnough(ts: seq<string>, j: nat, log: seq<Win>, n: nat)
    requires j <= |ts| && n <= |log|
    ensures Embeds(ts, j, log, n) <==> j <= Struck(ts, log, n)
    decreases n
  {
    if n > 0 && j > 0 {
      EagerIsEnough(ts, j, log, n - 1);
      EagerIsEnough(ts, j - 1, log, n - 1);
    }
  }

  lemma {:induction false} StruckBefore(ts: seq<string>, log: seq<Win>, w: Win, n: nat)
    requires n <= |log|
    ensures Struck(ts, log + [w], n) == Struck(ts, log, n)
  {
    if n > 0 {
      StruckBefore(ts, log, w, n - 1);
    }
  }

  /** The list is finished by `w`, found whole in the successes, or struck off whole: all the same. */
  lemma FinishedList(ts: seq<string>, log: seq<Win>, w: Win)
    requires Struck(ts, log, |log|) < |ts|
    ensures var k, all := Struck(ts, log, |log|), log + [w];
      && Struck(ts, all, |all|) == (if Answers(ts[k], w) then k + 1 else k)
      && (Embeds(ts, |ts|, all, |all|) <==> Struck(ts, all, |all|) == |ts|)
      && (Embeds(ts, |ts|, all, |all|) <==> Finishes(ts, all))
  {
    var all := log + [w];
    StruckBefore(ts, log, w, |log|);
    EagerIsEnough(ts, |ts|, all, |all|);
    EagerIsEnough(ts, |ts| - 1, all, |log|);
    EagerIsEnough(ts, |ts|, all, |log|);
  }

  // ---- The strings follow the entries -----------------------------------

  /** The entries of a list a well-formed configuration accepts. */
  predicate Proper(ts: seq<string>) { forall i :: 0 <= i < |ts| ==> ts[i] != "" && ',' !in ts[i] }

  /** List `i` holds the entries of goal `i` that are not struck off, and there are some. */
  predicate Tracks(lists: seq<string>, goals: seq<seq<string>>, log: seq<Win>) {
    && |lists| == |goals|
    && forall i :: 0 <= i < |goals| ==> TracksOne(lists[i], goals[i], log)
  }

  predicate TracksOne(list: string, ts: seq<string>, log: seq<Win>) {
    Proper(ts) && Struck(ts, log, |log|) < |ts| && list == Join(ts[Struck(ts, log, |log|)..])
  }

  predicate SomeFinished(goals: seq<seq<string>>, log: seq<Win>) {
    exists i :: 0 <= i < |goals| && Finishes(goals[i], log)
  }

  /** remove_method on one list is striking off one entry. */
  lemma RemoveTracks(list: string, ts: seq<string>, log: seq<Win>, w: Win)
    requires TracksOne(list, ts, log) && ',' !in w.name && (w.sub.Some? ==> ',' !in w.sub.value)
    ensures var r := RemoveMethod(list, w.name, w.sub);
      && (r == Some("") <==> Finishes(ts, log + [w]))
      && (r.None? ==> TracksOne(list, ts, log + [w]))
      && (r.Some? && r.value != "" ==> TracksOne(r.value, ts, log + [w]))
  {
    hide RemoveMethod, EntryMatch, Finishes;
    var k := Struck(ts, log, |log|);
    EntriesJoin(ts[k..]);
    RemoveFirstEntry(list, w.name, w.sub);
    FinishedList(ts, log, w);
    LeftoverEmpty(ts[k..][1..]);
    assert ts[k..][1..] == ts[k + 1..];
  }

  /** Lists before `i` have taken the success `w`, the others have not. */
  predicate Between(lists: seq<string>, i: nat, goals: seq<seq<string>>, log: seq<Win>, w: Win) {
    && i <= |lists| == |goals|
    && (forall j :: 0 <= j < i ==> TracksOne(lists[j], goals[j], log + [w]) && !Finishes(goals[j], log + [w]))
    && (forall j :: i <= j < |lists| ==> TracksOne(lists[j], goals[j], log))
  }

  lemma BetweenStep(lists: seq<string>, i: nat, goals: seq<seq<string>>, log: seq<Win>, w: Win)
    requires Between(lists, i, goals, log, w) && i < |lists|
    requires ',' !in w.name && (w.sub.Some? ==> ',' !in w.sub.value)
    ensures var r := RemoveMethod(lists[i], w.name, w.sub);
      && (r == Some("") <==> Finishes(goals[i], log + [w]))
      && (r != Some("") ==> Between(if r.Some? then lists[i := r.value] else lists, i + 1, goals, log, w))
  {
    hide TracksOne, Finishes, RemoveMethod;
    RemoveTracks(lists[i], goals[i], log, w);
  }

  lemma {:induction false} UpdateTracks(lists: seq<string>, i: nat, goals: seq<seq<string>>, log: seq<Win>, w: Win)
    requires Between(lists, i, goals, log, w) && ',' !in w.name && (w.sub.Some? ==> ',' !in w.sub.value)
    ensures var u := UpdateFrom(lists, i, w);
      && (u.done <==> SomeFinished(goals, log + [w]))
      && (!u.done ==> Tracks(u.lists, goals, log + [w]))
    decreases |lists| - i
  {
    hide TracksOne, Finishes, RemoveMethod;
    if i < |lists| {
      BetweenStep(lists, i, goals, log, w);
      var r := RemoveMethod(lists[i], w.name, w.sub);
      if r != Some("") {
        UpdateTracks(if r.Some? then lists[i := r.value] else lists, i + 1, goals, log, w);
      }
    }
  }

  lemma {:induction false} NotFoundKeeps(lists: seq<string>, i: nat, w: Win)
    requires i <= |lists|
    ensures !UpdateFrom(lists, i, w).found ==> UpdateFrom(lists, i, w) == Updated(lists, false, false)
    decreases |lists| - i
  {
    if i < |lists| && RemoveMethod(lists[i], w.name, w.sub).None? {
      NotFoundKeeps(lists, i + 1, w);
    }
  }

  /** The entries of the enabled configured lists. */
  function Goals(cfg: Config): seq<seq<string>> {
    var lists := EnabledLists(cfg.table, cfg.methods);
    seq(|lists|, i requires 0 <= i < |lists| => Entries(lists[i]))
  }

  lemma {:induction false} KnownIsNamed(table: seq<MethodCfg>, name: string)
    requires Known(table, name, true)
    ensures exists i :: 0 <= i < |table| && table[i].name == name && table[i].enabled
  {
    if table[0].name != name {
      KnownIsNamed(table[1..], name);
      var i :| 0 <= i < |table[1..]| && table[1..][i].name == name && table[1..][i].enabled;
      assert table[i + 1] == table[1..][i];
    }
  }

  lemma {:induction false} AllKnownProper(cfg: Config, ts: seq<string>)
    requires WellFormed(cfg) && AllKnown(cfg.table, ts, true) && forall i :: 0 <= i < |ts| ==> ',' !in ts[i]
    ensures Proper(ts)
  {
    if ts != [] {
      KnownIsNamed(cfg.table, Upto(ts[0], ':'));
      AllKnownProper(cfg, ts[1..]);
      assert forall i :: 0 < i < |ts| ==> ts[i] == ts[1..][i - 1];
    }
  }

  lemma {:induction false} EnabledAreValid(table: seq<MethodCfg>, lists: seq<string>)
    ensures forall i :: 0 <= i < |EnabledLists(table, lists)| ==>
      ValidList(table, EnabledLists(table, lists)[i], true) && EnabledLists(table, lists)[i] in lists
  {
    if lists != [] {
      EnabledAreValid(table, lists[..|lists| - 1]);
    }
  }

  lemma SetupTracks(cfg: Config)
    requires WellFormed(cfg)
    ensures Tracks(EnabledLists(cfg.table, cfg.methods), Goals(cfg), [])
  {
    var lists := EnabledLists(cfg.table, cfg.methods);
    EnabledAreValid(cfg.table, cfg.methods);
    forall i | 0 <= i < |lists| ensures TracksOne(lists[i], Goals(cfg)[i], []) {
      AllKnownProper(cfg, Entries(lists[i]));
      JoinEntries(lists[i]);
      assert Entries(lists[i])[0..] == Entries(lists[i]);
    }
  }

  // ---- Runs -------------------------------------------------------------

  /** What holds in every state of a connection. */
  predicate Inv(cfg: Config, a: Auth) {
    match a.phase
    case Running =>
      && a.attempt <= MAX_ATTEMPTS && a.failures < cfg.maxTries
      && (a.attempt == 0 ==> a.log == [])
      && (Configured(cfg) && a.attempt > 0 ==> Tracks(a.lists, Goals(cfg), a.log))
    case Succeeded =>
      && a.valid && a.attempt <= MAX_ATTEMPTS
      && a.log != [] && a.log[|a.log| - 1].user == a.user
      && (Configured(cfg) ==> SomeFinished(Goals(cfg), a.log))
    case Ended => true
  }

  const START: Auth := Auth(Running, "", "", false, 0, 0, [], [], true)

  lemma AcceptKeeps(cfg: Config, a: Auth, w: Win, v: Verdict)
    requires WellFormed(cfg) && Inv(cfg, a) && a.phase == Running && a.attempt > 0 && a.valid && w.user == a.user
    requires ',' !in w.name && (w.sub.Some? ==> ',' !in w.sub.value)
    ensures Inv(cfg, Accept(cfg, a, w, v))
    ensures Accept(cfg, a, w, v).phase == Succeeded <==> (Configured(cfg) ==> SomeFinished(Goals(cfg), a.log + [w]))
  {
    if Configured(cfg) {
      UpdateTracks(a.lists, 0, Goals(cfg), a.log, w);
    }
  }

  lemma FinishKeeps(cfg: Config, a: Auth, name: string, sub: Option<string>, v: Verdict)
    requires WellFormed(cfg) && Inv(cfg, a) && a.phase == Running && a.attempt > 0
    requires sub.Some? ==> ',' !in sub.value
    ensures Inv(cfg, Finish(cfg, a, name, sub, v))
  {
    if v.authenticated && a.valid && !v.postponed && !v.rootDenied && ByName(cfg.table, name).Some? {
      AcceptKeeps(cfg, a, Win(ByName(cfg.table, name).value.name, sub, a.user), v);
    }
  }

  lemma IdentifyKeeps(cfg: Config, a: Auth, e: Event)
    requires WellFormed(cfg) && Inv(cfg, a) && a.phase == Running && a.attempt < MAX_ATTEMPTS && e.Request?
    ensures Inv(cfg, Identify(cfg, a, e)) && Identify(cfg, a, e).attempt > 0
    ensures Identify(cfg, a, e).phase != Succeeded && Identify(cfg, a, e).log == a.log
  {
    SetupTracks(cfg);
  }

  lemma StepKeeps(cfg: Config, a: Auth, e: Event)
    requires WellFormed(cfg) && Inv(cfg, a) && Possible(a, e)
    ensures Inv(cfg, Step(cfg, a, e))
  {
    if e.Reply? {
      FinishKeeps(cfg, SetUsername(a, e), e.name, e.sub, e.v);
    } else if a.attempt < MAX_ATTEMPTS {
      IdentifyKeeps(cfg, a, e);
      var b := Identify(cfg, a, e);
      if b.phase == Running && e.service == b.service {
        var run := MayRun(cfg, b, e.name) && b.failures < cfg.maxTries;
        var c := if run && e.name == "none" then b.(noneEnabled := false) else b;
        FinishKeeps(cfg, c, e.name, None, if run then e.v else NOT_RUN);
      }
    }
  }

  predicate ValidRun(cfg: Config, a: Auth, events: seq<Event>)
    decreases |events|
  {
    events == [] || (Possible(a, events[0]) && ValidRun(cfg, Step(cfg, a, events[0]), events[1..]))
  }

  function Final(cfg: Config, a: Auth, events: seq<Event>): Auth
    requires ValidRun(cfg, a, events)
    decreases |events|
  {
    if events == [] then a else Final(cfg, Step(cfg, a, events[0]), events[1..])
  }

  lemma {:induction false} RunKeeps(cfg: Config, a: Auth, events: seq<Event>)
    requires WellFormed(cfg) && Inv(cfg, a) && ValidRun(cfg, a, events)
    ensures Inv(cfg, Final(cfg, a, events))
    decreases |events|
  {
    if events != [] {
      StepKeeps(cfg, a, events[0]);
      RunKeeps(cfg, Step(cfg, a, events[0]), events[1..]);
    }
  }

  /** In every run of a connection: while it goes on, the failures are below the limit, the attempts within
      theirs, and no enabled list has been answered in full; and when it succeeds, the user is valid, the last
      success was that user's and, if AuthenticationMethods is set, the successes answer one enabled list in
      order, the last finishing it. */
  lemma SuccessOnlyByCompletedList(cfg: Config, events: seq<Event>)
    requires WellFormed(cfg) && ValidRun(cfg, START, events)
    ensures var a := Final(cfg, START, events);
      && (a.phase == Running ==>
            && a.failures < cfg.maxTries && a.attempt <= MAX_ATTEMPTS
            && (Configured(cfg) && a.attempt > 0 ==>
                  forall i :: 0 <= i < |Goals(cfg)| ==> !Embeds(Goals(cfg)[i], |Goals(cfg)[i]|, a.log, |a.log|)))
      && (a.phase == Succeeded ==>
            && a.valid && a.log != [] && a.log[|a.log| - 1].user == a.user
            && (Configured(cfg) ==> SomeFinished(Goals(cfg), a.log)))
  {
    RunKeeps(cfg, START, events);
    var a, goals := Final(cfg, START, events), Goals(cfg);
    if a.phase == Running && Configured(cfg) && a.attempt > 0 {
      forall i | 0 <= i < |goals| ensures !Embeds(goals[i], |goals[i]|, a.log, |a.log|) {
        assert TracksOne(a.lists[i], goals[i], a.log);
        EagerIsEnough(goals[i], |goals[i]|, a.log, |a.log|);
      }
    }
  }

  /** And the other way: at any point of any run, a success of a known method for a valid user ends the
      authentication exactly when it completes an enabled list. */
  lemma CompletedListSucceeds(cfg: Config, events: seq<Event>, name: string, sub: Option<string>, v: Verdict)
    requires WellFormed(cfg) && ValidRun(cfg, START, events) && Configured(cfg)
    requires var a := Final(cfg, START, events); a.phase == Running && a.attempt > 0 && a.valid
    requires v.authenticated && !v.postponed && !v.rootDenied && ByName(cfg.table, name).Some?
    requires sub.Some? ==> ',' !in sub.value
    ensures var a := Final(cfg, START, events);
      Finish(cfg, a, name, sub, v).phase == Succeeded <==>
      SomeFinished(Goals(cfg), a.log + [Win(ByName(cfg.table, name).value.name, sub, a.user)])
  {
    RunKeeps(cfg, START, events);
    var a := Final(cfg, START, events);
    AcceptKeeps(cfg, a, Win(ByName(cfg.table, name).value.name, sub, a.user), v);
  }

  // ---- Whose successes --------------------------------------------------

  /** The user a success of this event is for: the name of the request cut at its colon, the user there is, or, if
      there is none, the name a reply brings. */
  function EventUser(a: Auth, e: Event): string {
    if e.Request? then Upto(e.user, ':') else SetUsername(a, e).user
  }

  predicate OneUser(log: seq<Win>) {
    forall i :: 0 <= i < |log| ==> log[i].user == log[0].user
  }

  /** The log is the same, or has one more success, of this user. */
  predicate Grows(log: seq<Win>, more: seq<Win>, user: string) {
    more == log || (|more| == |log| + 1 && more[..|log|] == log && more[|log|].user == user)
  }

  lemma FinishGrows(cfg: Config, a: Auth, name: string, sub: Option<string>, v: Verdict)
    ensures Grows(a.log, Finish(cfg, a, name, sub, v).log, a.user) && Finish(cfg, a, name, sub, v).user == a.user
  {
    hide UpdateLists;
  }

  lemma IdentifyNames(cfg: Config, a: Auth, e: Event)
    requires e.Request?
    ensures Identify(cfg, a, e).log == a.log && Identify(cfg, a, e).user == Upto(e.user, ':')
  {
    hide EnabledLists;
  }

  /** An event adds at most one success to the log, of the user the event is for. */
  lemma AcceptedUser(cfg: Config, a: Auth, e: Event)
    requires Possible(a, e)
    ensures Grows(a.log, Step(cfg, a, e).log, EventUser(a, e))
    ensures Step(cfg, a, e).phase == Running ==> Step(cfg, a, e).user == EventUser(a, e)
  {
    hide Finish, Identify, MayRun, Grows;
    Unchanged(a.log, EventUser(a, e));
    if e.Reply? {
      FinishGrows(cfg, SetUsername(a, e), e.name, e.sub, e.v);
    } else {
      IdentifyNames(cfg, a, e);
      var b := Identify(cfg, a, e);
      var run := MayRun(cfg, b, e.name) && b.failures < cfg.maxTries;
      var c := if run && e.name == "none" then b.(noneEnabled := false) else b;
      FinishGrows(cfg, c, e.name, None, if run then e.v else NOT_RUN);
    }
  }

  lemma Unchanged(log: seq<Win>, user: string)
    ensures Grows(log, log, user)
  {
  }

  const TWO_METHODS: Config :=
    Config([MethodCfg("publickey", None, true), MethodCfg("password", None, true)], ["publickey,password"], 6)
  const YES: Verdict := Verdict(true, false, false, false)

  lemma TwoMethodEntries()
    ensures Entries("publickey,password") == ["publickey", "password"] && Entries("password") == ["password"]
  {
    hide Entries;
    EntriesJoin(["publickey", "password"]);
    EntriesJoin(["password"]);
    assert ["publickey", "password"][1..] == ["password"];
    assert Join(["publickey", "password"]) == "publickey" + "," + "password" == "publickey,password";
  }

  lemma WholeName(name: string)
    requires ':' !in name
    ensures Upto(name, ':') == name
  {
    assert name + "" == name;
    UptoIs(name, "", ':');
  }

  lemma TwoMethodsKnown()
    ensures AllKnown(TWO_METHODS.table, ["publickey", "password"], true)
  {
    hide Upto;
    WholeName("publickey");
    WholeName("password");
    var table := TWO_METHODS.table;
    assert table[1..][0] == table[1];
    assert Known(table, "publickey", true) && Known(table, "password", true);
    assert ["publickey", "password"][1..] == ["password"] && ["password"][1..] == [];
    assert AllKnown(table, ["password"], true);
  }

  lemma TwoMethodLists()
    ensures EnabledLists(TWO_METHODS.table, TWO_METHODS.methods) == ["publickey,password"]
  {
    hide Entries, AllKnown;
    TwoMethodEntries();
    TwoMethodsKnown();
    assert TWO_METHODS.methods[..0] == [];
    assert EnabledLists(TWO_METHODS.table, []) == [];
  }

  lemma TwoSteps(cfg: Config, a: Auth, first: Event, second: Event)
    requires Possible(a, first) && Possible(Step(cfg, a, first), second)
    ensures ValidRun(cfg, a, [first, second]) && Final(cfg, a, [first, second]) == Step(cfg, Step(cfg, a, first), second)
  {
    hide Step, Possible;
    var events := [first, second];
    assert events[1..] == [second] && [second][1..] == [];
    var b := Step(cfg, a, first);
    assert ValidRun(cfg, Step(cfg, b, second), []) && Final(cfg, Step(cfg, b, second), []) == Step(cfg, b, second);
    assert ValidRun(cfg, b, [second]) && Final(cfg, b, [second]) == Step(cfg, b, second);
  }

  /** Section 5 of RFC 4252 wants a change of user name to start the authentication over. The context of auth2.c alone
      keeps its lists, so it reports success when two users finish one list, one with the first method and the other
      with the second. The privileged monitor sets its lists up again at the account lookup and stops this run. */
  lemma TwoUsersFinishOneList()
    ensures var events := [Request("alice", "ssh-connection", "publickey", true, YES),
                           Request("bob", "ssh-connection", "password", true, YES)];
      && WellFormed(TWO_METHODS) && ValidRun(TWO_METHODS, START, events)
      && Final(TWO_METHODS, START, events).phase == Succeeded && Final(TWO_METHODS, START, events).user == "bob"
      && Final(TWO_METHODS, START, events).log == [Win("publickey", None, "alice"), Win("password", None, "bob")]
  {
    hide Step, Possible, ValidRun, Final;
    var first := Request("alice", "ssh-connection", "publickey", true, YES);
    var second := Request("bob", "ssh-connection", "password", true, YES);
    FirstSuccess(first);
    SecondSuccess(second);
    TwoSteps(TWO_METHODS, START, first, second);
  }

  const AFTER_FIRST: Auth :=
    Auth(Running, "alice", "ssh-connection", true, 1, 0, ["password"], [Win("publickey", None, "alice")], true)

  lemma FirstSuccess(e: Event)
    requires e == Request("alice", "ssh-connection", "publickey", true, YES)
    ensures Possible(START, e) && Step(TWO_METHODS, START, e) == AFTER_FIRST
  {
    hide EnabledLists, ListStartsWith, RemoveMethod, Upto, Entries;
    TwoMethodLists();
    TwoMethodEntries();
    WholeName("alice");
    AfterFirst("publickey,password");
    StartsWithFirstEntry("publickey,password", "publickey", "publickey", None);
    RemoveFirstEntry("publickey,password", "publickey", None);
    assert ["publickey", "password"][1..] == ["password"];
    var w := Win("publickey", None, "alice");
    assert UpdateLists(["publickey,password"], w) == Updated(["password"], true, false);
  }

  lemma SecondSuccess(e: Event)
    requires e == Request("bob", "ssh-connection", "password", true, YES)
    ensures Possible(AFTER_FIRST, e)
    ensures var b := Step(TWO_METHODS, AFTER_FIRST, e);
      && b.phase == Succeeded && b.user == "bob"
      && b.log == [Win("publickey", None, "alice"), Win("password", None, "bob")]
  {
    hide EnabledLists, ListStartsWith, RemoveMethod, Upto, Entries;
    TwoMethodLists();
    TwoMethodEntries();
    WholeName("bob");
    AfterFirst("password");
    StartsWithFirstEntry("password", "password", "password", None);
    RemoveFirstEntry("password", "password", None);
    assert ["password"][1..] == [];
    var w := Win("password", None, "bob");
    assert UpdateLists(["password"], w) == Updated([""], true, true);
  }

  /** In any run of this context, as long as the successes are of one user, a further one keeps them so if and only if it is the
      first or the event that brings it is for that same user. */
  lemma OneUserExactly(cfg: Config, events: seq<Event>, e: Event)
    requires ValidRun(cfg, START, events) && Possible(Final(cfg, START, events), e)
    requires var a := Final(cfg, START, events); OneUser(a.log) && Step(cfg, a, e).log != a.log
    ensures var a := Final(cfg, START, events);
      OneUser(Step(cfg, a, e).log) <==> a.log == [] || EventUser(a, e) == a.log[0].user
  {
    hide Step;
    AcceptedUser(cfg, Final(cfg, START, events), e);
  }

  /** Every name in the event is that of the user. */
  predicate Names(e: Event, user: string) {
    match e
    case Request(name, _, _, _, _) => Upto(name, ':') == user
    case Reply(_, _, named, _, _) => named.Some? ==> named.value == user
  }

  predicate AllBy(log: seq<Win>, user: string) { forall i :: 0 <= i < |log| ==> log[i].user == user }

  lemma NamedStep(cfg: Config, a: Auth, e: Event, user: string)
    requires Possible(a, e) && Names(e, user) && AllBy(a.log, user) && (a.attempt > 0 ==> a.user == user)
    ensures AllBy(Step(cfg, a, e).log, user) && (Step(cfg, a, e).phase == Running ==> Step(cfg, a, e).user == user)
  {
    hide Step, Upto;
    AcceptedUser(cfg, a, e);
    var log, more := a.log, Step(cfg, a, e).log;
    assert forall i :: 0 <= i < |log| && log != more ==> more[i] == more[..|log|][i];
  }

  lemma {:induction false} NamedRun(cfg: Config, a: Auth, events: seq<Event>, user: string)
    requires ValidRun(cfg, a, events) && (forall k :: 0 <= k < |events| ==> Names(events[k], user))
    requires AllBy(a.log, user) && (a.phase == Running && a.attempt > 0 ==> a.user == user)
    ensures AllBy(Final(cfg, a, events).log, user)
    decreases |events|
  {
    hide Step, Names, AllBy;
    if events != [] {
      NamedStep(cfg, a, events[0], user);
      NamedRun(cfg, Step(cfg, a, events[0]), events[1..], user);
    }
  }

  /** In a run all of whose events name one user, every success is that user's, so one user finishes the list. */
  lemma OneNameOneUser(cfg: Config, events: seq<Event>, user: string)
    requires ValidRun(cfg, START, events) && (forall k :: 0 <= k < |events| ==> Names(events[k], user))
    ensures AllBy(Final(cfg, START, events).log, user)
  {
    NamedRun(cfg, START, events, user);
  }

  // ---- The authentication context ---------------------------------------

  predicate Distinct<K(==)>(keys: seq<K>) {
    forall i, j :: 0 <= i < j < |keys| ==> keys[i] != keys[j]
  }

  /** struct Authctxt, for public keys of type K compared by sshkey_equal_public. */
  class Authctxt<K(==)> {
    const cfg: Config
    var phase: Phase
    var user: string
    var service: string
    var valid: bool
    var attempt: nat
    var failures: nat
    var lists: seq<string>
    var noneEnabled: bool
    var prevKeys: seq<K>
    ghost var log: seq<Win>

    ghost function Model(): Auth
      reads this
    {
      Auth(phase, user, service, valid, attempt, failures, lists, log, noneEnabled)
    }

    constructor (cfg: Config)
      ensures this.cfg == cfg && Model() == START && prevKeys == []
    {
      this.cfg := cfg;
      phase, user, service, valid := Running, "", "", false;
      attempt, failures, lists, noneEnabled := 0, 0, [], true;
      prevKeys, log := [], [];
    }

    /** auth2_setup_methods_lists. */
    method SetupMethodsLists() returns (ok: bool)
      modifies this`lists
      ensures ok == (Configured(cfg) ==> EnabledLists(cfg.table, cfg.methods) != [])
      ensures lists == if Configured(cfg) then EnabledLists(cfg.table, cfg.methods) else old(lists)
    {
      if |cfg.methods| == 0 || (|cfg.methods| == 1 && cfg.methods[0] == "any") {
        return true;
      }
      lists := [];
      var i := 0;
      while i < |cfg.methods|
        invariant i <= |cfg.methods| && lists == EnabledLists(cfg.table, cfg.methods[..i])
      {
        var good := MethodsValid(cfg.table, cfg.methods[i], true);
        assert cfg.methods[..i + 1][..i] == cfg.methods[..i];
        if good {
          lists := lists + [cfg.methods[i]];
        }
        i := i + 1;
      }
      assert cfg.methods[..i] == cfg.methods;
      ok := |lists| != 0;
    }

    /** auth2_method_allowed. */
    method MethodAllowed(name: string, sub: Option<string>) returns (ok: bool)
      ensures ok == Allowed(cfg, lists, name, sub)
    {
      if |cfg.methods| == 0 || (|cfg.methods| == 1 && cfg.methods[0] == "any") {
        return true;
      }
      var i := 0;
      while i < |lists|
        invariant i <= |lists| && forall j :: 0 <= j < i ==> ListStartsWith(lists[j], name, sub) == MatchNone
      {
        if ListStartsWith(lists[i], name, sub) != MatchNone {
          return true;
        }
        i := i + 1;
      }
      return false;
    }

    /** auth2_update_methods_lists; `found` is false where the source ends the process. */
    method UpdateMethodsLists(w: Win) returns (found: bool, complete: bool)
      modifies this`lists
      ensures Updated(lists, found, complete) == UpdateLists(old(lists), w)
    {
      found, complete := false, false;
      var i := 0;
      while i < |lists|
        invariant i <= |lists| && !complete
        invariant var u := UpdateFrom(lists, i, w); UpdateLists(old(lists), w) == u.(found := found || u.found)
      {
        var r := RemoveMethod(lists[i], w.name, w.sub);
        if r.Some? {
          lists := lists[i := r.value];
          found := true;
          if r.value == "" {
            return true, true;
          }
        }
        i := i + 1;
      }
    }

    /** auth2_key_already_used. */
    method KeyAlreadyUsed(key: K) returns (used: bool)
      ensures used == (key in prevKeys)
    {
      var i := 0;
      while i < |prevKeys|
        invariant i <= |prevKeys| && key !in prevKeys[..i]
      {
        if key == prevKeys[i] {
          return true;
        }
        i := i + 1;
      }
      return false;
    }

    /** The public key method around auth2_key_already_used and auth2_record_key: no key is accepted twice. */
    method TryKey(key: K, signatureGood: bool) returns (authenticated: bool)
      requires Distinct(prevKeys)
      modifies this`prevKeys
      ensures authenticated == (signatureGood && key !in old(prevKeys))
      ensures Distinct(prevKeys) && prevKeys == if authenticated then old(prevKeys) + [key] else old(prevKeys)
    {
      var used := KeyAlreadyUsed(key);
      authenticated := !used && signatureGood;
      if authenticated {
        prevKeys := prevKeys + [key];
      }
    }

    /** userauth_finish. */
    method UserauthFinish(packetMethod: string, sub: Option<string>, v: Verdict)
      requires phase == Running
      modifies this
      ensures Model() == Finish(cfg, old(Model()), packetMethod, sub, v) && prevKeys == old(prevKeys)
    {
      hide UpdateFrom, ByName;
      var authenticated, partial, name := v.authenticated, false, packetMethod;
      if authenticated {
        var m := ByName(cfg.table, packetMethod);
        if !valid || v.postponed || m.None? {
          phase := Ended;
          return;
        }
        name := m.value.name;
      }
      if authenticated && v.rootDenied {
        authenticated := false;
      }
      if authenticated {
        log := log + [Win(name, sub, user)];
        if Configured(cfg) {
          NotFoundKeeps(lists, 0, Win(name, sub, user));
          var found, complete := UpdateMethodsLists(Win(name, sub, user));
          if !found {
            phase := Ended;
            return;
          }
          if !complete {
            authenticated, partial := false, true;
          }
        }
      }
      if v.postponed {
        return;
      }
      if authenticated {
        phase := Succeeded;
      } else {
        if !partial && !v.serverFault && (attempt > 1 || name != "none") {
          failures := failures + 1;
        }
        if failures >= cfg.maxTries {
          phase := Ended;
        }
      }
    }

    /** The part of input_userauth_request that sets up or resets the context. */
    method SetupUser(e: Event)
      requires phase == Running && e.Request?
      modifies this
      ensures Model() == Identify(cfg, old(Model()), e) && prevKeys == old(prevKeys)
    {
      hide EnabledLists;
      var n := Find(e.user, ':');
      var name := e.user[..n];
      attempt := attempt + 1;
      if attempt == 1 || name != user || name == "" {
        user, service := name, e.service;
        valid := e.known && !(name == "" && (e.name == "gssapi" || e.name == "gssapi-with-mic"));
        if e.service != "ssh-connection" {
          phase := Ended;
        } else if attempt == 1 {
          var ok := SetupMethodsLists();
          if !ok {
            phase := Ended;
          }
        }
      }
    }

    /** authmethod_lookup. */
    method MethodLookup(name: string) returns (found: bool)
      ensures found == MayRun(cfg, Model(), name)
    {
      var m := ByName(cfg.table, name);
      if m.None? || !m.value.enabled || (m.value.name == "none" && !noneEnabled) {
        return false;
      }
      found := MethodAllowed(m.value.name, None);
    }

    /** input_userauth_request, with the verdict the method would give if it is run. */
    method InputUserauthRequest(e: Event)
      requires phase == Running && e.Request?
      modifies this
      ensures Model() == HandleRequest(cfg, old(Model()), e) && prevKeys == old(prevKeys)
    {
      if attempt >= MAX_ATTEMPTS {
        phase := Ended;
        return;
      }
      SetupUser(e);
      if phase == Ended || e.service != service {
        phase := Ended;
        return;
      }
      var run := MethodLookup(e.name);
      run := run && failures < cfg.maxTries;
      if run && e.name == "none" {
        noneEnabled := false;
      }
      UserauthFinish(e.name, None, if run then e.v else NOT_RUN);
    }

    /** The later replies of a postponed method, with gssapi_set_username first. */
    method InputReply(e: Event)
      requires phase == Running && e.Reply?
      modifies this
      ensures Model() == HandleReply(cfg, old(Model()), e) && prevKeys == old(prevKeys)
    {
      if user == "" && e.named.Some? && e.named.value != "" {
        user := e.named.value;
        if e.known {
          valid := true;
        }
      }
      UserauthFinish(e.name, e.sub, e.v);
    }
  }
}
