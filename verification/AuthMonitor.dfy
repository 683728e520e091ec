/**
 The privileged monitor of monitor.c beside the unprivileged process of auth2.c.
 The monitor keeps its own method lists: every account lookup sets them up again,
 every success it has verified itself updates them, and only when it ends its loop
 is the user logged in. A connection succeeds when both processes do.
 */
module AuthMonitor {
  import opened Options
  import opened MethodLists
  import opened UserAuth

  /** The monitor's context; `since` are the successes since the last account lookup. */
  datatype Monitor = Monitor(phase: Phase, user: string, valid: bool, failures: nat, lists: seq<string>, since: seq<Win>)

  /** A request of the unprivileged process: an account lookup, or one that decides a method. */
  datatype Ask =
    | Lookup(user: string, known: bool)
    | Answer(name: string, sub: Option<string>, ok: bool, rootDenied: bool)

  const IDLE: Monitor := Monitor(Running, "", false, 0, [], [])

  // ---- The loop of monitor_child_preauth --------------------------------

  /** A decision against the user; the process ends above MaxAuthTries. */
  function Missed(cfg: Config, m: Monitor): Monitor {
    var b := m.(failures := m.failures + 1);
    if b.failures > cfg.maxTries then b.(phase := Ended) else b
  }

  function Granted(cfg: Config, m: Monitor, rootDenied: bool): Monitor {
    if rootDenied then Missed(cfg, m) else m.(phase := if m.valid then Succeeded else Ended)
  }

  /** A verified success: the lists come first, then the check for root. */
  function Decide(cfg: Config, m: Monitor, w: Win, rootDenied: bool): Monitor {
    var b := m.(since := m.since + [w]);
    if !Configured(cfg) then Granted(cfg, b, rootDenied)
    else
      var u := UpdateLists(m.lists, w);
      if u.done then Granted(cfg, b.(lists := u.lists), rootDenied)
      else if !u.found then b.(phase := Ended)
      else b.(lists := u.lists)
  }

  /** mm_answer_pwnamallow: a failed lookup does not take validity away. */
  function LookUp(cfg: Config, m: Monitor, user: string, known: bool): Monitor {
    m.(user := user, valid := m.valid || known, since := [],
       lists := if Configured(cfg) then EnabledLists(cfg.table, cfg.methods) else m.lists)
  }

  /** One turn of the loop, which is over once a user is authenticated or the process has ended. */
  function Turn(cfg: Config, m: Monitor, ask: Ask): Monitor {
    if m.phase != Running then m
    else
      match ask
      case Lookup(user, known) => LookUp(cfg, m, user, known)
      case Answer(name, sub, ok, rootDenied) =>
        if ok then Decide(cfg, m, Win(name, sub, m.user), rootDenied) else Missed(cfg, m)
  }

  /** The handlers verify a success only in a valid context, and name the method themselves. */
  predicate Askable(m: Monitor, ask: Ask) {
    ask.Answer? && ask.ok ==>
      m.valid && ask.name != "" && ',' !in ask.name && (ask.sub.Some? ==> ',' !in ask.sub.value)
  }

  predicate ValidAsks(cfg: Config, m: Monitor, asks: seq<Ask>)
    decreases |asks|
  {
    asks == [] || (Askable(m, asks[0]) && ValidAsks(cfg, Turn(cfg, m, asks[0]), asks[1..]))
  }

  function Turns(cfg: Config, m: Monitor, asks: seq<Ask>): Monitor
    decreases |asks|
  {
    if asks == [] then m else Turns(cfg, Turn(cfg, m, asks[0]), asks[1..])
  }

  // ---- The lists never run ahead of the successes -----------------------

  /** The string holds the entries from some point on that striking off has reached. */
  predicate BehindOne(list: string, ts: seq<string>, log: seq<Win>) {
    Proper(ts) && exists k :: 0 <= k <= Struck(ts, log, |log|) && list == Join(ts[k..])
  }

  predicate Behind(lists: seq<string>, goals: seq<seq<string>>, log: seq<Win>) {
    |lists| == |goals| && forall i :: 0 <= i < |goals| ==> BehindOne(lists[i], goals[i], log)
  }

  lemma TracksIsBehind(list: string, ts: seq<string>, log: seq<Win>)
    requires TracksOne(list, ts, log)
    ensures BehindOne(list, ts, log)
  {
    assert list == Join(ts[Struck(ts, log, |log|)..]);
  }

  /** One more success strikes off at most one more entry, and none less. */
  lemma StruckMore(ts: seq<string>, log: seq<Win>, w: Win)
    ensures var k, n := Struck(ts, log, |log|), Struck(ts, log + [w], |log| + 1);
      n == if k < |ts| && Answers(ts[k], w) then k + 1 else k
  {
    StruckBefore(ts, log, w, |log|);
  }

  lemma BehindLater(list: string, ts: seq<string>, log: seq<Win>, w: Win)
    requires BehindOne(list, ts, log)
    ensures BehindOne(list, ts, log + [w])
  {
    hide Struck, Join;
    var k :| 0 <= k <= Struck(ts, log, |log|) && list == Join(ts[k..]);
    StruckMore(ts, log, w);
    assert k <= Struck(ts, log + [w], |log + [w]|);
  }

  predicate GoodWin(w: Win) { w.name != "" && ',' !in w.name && (w.sub.Some? ==> ',' !in w.sub.value) }

  lemma NothingToRemove(w: Win)
    requires w.name != ""
    ensures RemoveMethod("", w.name, w.sub) == None
  {
  }

  /** remove_method on a string that is behind: what is left is behind, and it is empty only if the list is finished. */
  lemma RemoveBehind(list: string, ts: seq<string>, log: seq<Win>, w: Win)
    requires BehindOne(list, ts, log) && GoodWin(w)
    ensures var r := RemoveMethod(list, w.name, w.sub);
      && (r.Some? ==> BehindOne(r.value, ts, log + [w]))
      && (r == Some("") ==> Finishes(ts, log + [w]))
  {
    hide Struck, RemoveMethod, EntryMatch, Finishes;
    var k :| 0 <= k <= Struck(ts, log, |log|) && list == Join(ts[k..]);
    if k == |ts| {
      assert ts[k..] == [] && list == "";
      NothingToRemove(w);
    } else {
      EntriesJoin(ts[k..]);
      RemoveFirstEntry(list, w.name, w.sub);
      if Answers(ts[k], w) {
        assert ts[k..][1..] == ts[k + 1..];
        StruckMore(ts, log, w);
        assert k + 1 <= Struck(ts, log + [w], |log + [w]|);
        LeftoverEmpty(ts[k + 1..]);
        if k + 1 == |ts| {
          LastAnswered(ts, log, w);
        }
      }
    }
  }

  lemma LastAnswered(ts: seq<string>, log: seq<Win>, w: Win)
    requires ts != [] && |ts| - 1 <= Struck(ts, log, |log|) && Answers(ts[|ts| - 1], w)
    ensures Finishes(ts, log + [w])
  {
    hide Struck, EntryMatch;
    StruckBefore(ts, log, w, |log|);
    EagerIsEnough(ts, |ts| - 1, log + [w], |log|);
  }

  /** Lists before `i` have taken the success, the others have not. */
  predicate Halfway(lists: seq<string>, i: nat, goals: seq<seq<string>>, log: seq<Win>, w: Win) {
    && i <= |lists| == |goals|
    && (forall j :: 0 <= j < i ==> BehindOne(lists[j], goals[j], log + [w]))
    && (forall j :: i <= j < |lists| ==> BehindOne(lists[j], goals[j], log))
  }

  lemma HalfwayEnd(lists: seq<string>, i: nat, goals: seq<seq<string>>, log: seq<Win>, w: Win)
    requires Halfway(lists, i, goals, log, w)
    ensures Behind(lists, goals, log + [w])
  {
    hide BehindOne;
    forall j | i <= j < |lists| ensures BehindOne(lists[j], goals[j], log + [w]) {
      BehindLater(lists[j], goals[j], log, w);
    }
  }

  /** auth2_update_methods_lists keeps the lists behind, and completes one only if it is finished. */
  lemma {:induction false} UpdateBehind(lists: seq<string>, i: nat, goals: seq<seq<string>>, log: seq<Win>, w: Win)
    requires Halfway(lists, i, goals, log, w) && GoodWin(w)
    ensures var u := UpdateFrom(lists, i, w);
      Behind(u.lists, goals, log + [w]) && (u.done ==> SomeFinished(goals, log + [w]))
    decreases |lists| - i
  {
    hide BehindOne, RemoveMethod, Finishes, Behind, GoodWin;
    if i == |lists| {
      HalfwayEnd(lists, i, goals, log, w);
    } else {
      RemoveBehind(lists[i], goals[i], log, w);
      BehindLater(lists[i], goals[i], log, w);
      var r := RemoveMethod(lists[i], w.name, w.sub);
      var next := if r.Some? then lists[i := r.value] else lists;
      assert Halfway(next, i + 1, goals, log, w);
      if r == Some("") {
        HalfwayEnd(next, i + 1, goals, log, w);
      } else {
        UpdateBehind(next, i + 1, goals, log, w);
      }
    }
  }

  // ---- What the monitor accepts -----------------------------------------

  /** The successes since the lookup are of the user looked up, and the lists are behind them. */
  predicate MonitorInv(cfg: Config, m: Monitor) {
    && AllBy(m.since, m.user)
    && (m.phase == Running && m.valid && Configured(cfg) ==> Behind(m.lists, Goals(cfg), m.since))
    && (m.phase == Succeeded ==> m.valid && m.since != [] && (Configured(cfg) ==> SomeFinished(Goals(cfg), m.since)))
  }

  lemma LookUpKeeps(cfg: Config, m: Monitor, user: string, known: bool)
    requires WellFormed(cfg) && m.phase == Running
    ensures MonitorInv(cfg, LookUp(cfg, m, user, known))
  {
    hide TracksOne, BehindOne, EnabledLists;
    SetupTracks(cfg);
    var lists := EnabledLists(cfg.table, cfg.methods);
    forall i | 0 <= i < |lists| ensures BehindOne(lists[i], Goals(cfg)[i], []) {
      TracksIsBehind(lists[i], Goals(cfg)[i], []);
    }
  }

  lemma TurnKeeps(cfg: Config, m: Monitor, ask: Ask)
    requires WellFormed(cfg) && MonitorInv(cfg, m) && Askable(m, ask)
    ensures MonitorInv(cfg, Turn(cfg, m, ask))
  {
    hide Behind, SomeFinished, UpdateFrom;
    if m.phase == Running {
      match ask
      case Lookup(user, known) => LookUpKeeps(cfg, m, user, known);
      case Answer(name, sub, ok, _) =>
        if ok && Configured(cfg) {
          var w := Win(name, sub, m.user);
          StillBehind(m.lists, Goals(cfg), m.since, w);
          UpdateBehind(m.lists, 0, Goals(cfg), m.since, w);
        }
    }
  }

  lemma StillBehind(lists: seq<string>, goals: seq<seq<string>>, log: seq<Win>, w: Win)
    requires Behind(lists, goals, log)
    ensures Halfway(lists, 0, goals, log, w)
  {
  }

  lemma {:induction false} TurnsKeep(cfg: Config, m: Monitor, asks: seq<Ask>)
    requires WellFormed(cfg) && MonitorInv(cfg, m) && ValidAsks(cfg, m, asks)
    ensures MonitorInv(cfg, Turns(cfg, m, asks))
    decreases |asks|
  {
    hide MonitorInv, Turn, Askable;
    if asks != [] {
      TurnKeeps(cfg, m, asks[0]);
      TurnsKeep(cfg, Turn(cfg, m, asks[0]), asks[1..]);
    }
  }

  /** Whatever the unprivileged process asks, the monitor lets a user in only if the successes since the last account
      lookup are all that user's and, if AuthenticationMethods is set, answer one enabled list in order, the last
      finishing it. */
  lemma MonitorNeedsOneUser(cfg: Config, asks: seq<Ask>)
    requires WellFormed(cfg) && ValidAsks(cfg, IDLE, asks) && Turns(cfg, IDLE, asks).phase == Succeeded
    ensures var m := Turns(cfg, IDLE, asks);
      m.valid && m.since != [] && AllBy(m.since, m.user) && (Configured(cfg) ==> SomeFinished(Goals(cfg), m.since))
  {
    TurnsKeep(cfg, IDLE, asks);
  }

  // ---- Both processes ---------------------------------------------------

  datatype Server = Server(child: Auth, monitor: Monitor)

  const OPENED: Server := Server(START, IDLE)

  /** A packet the child handles, and what its method makes it ask the monitor to decide. */
  datatype Exchange = Exchange(e: Event, answers: seq<Ask>)

  /** The account lookup of input_userauth_request or of gssapi_set_username, if the child makes one. */
  function Lookups(a: Auth, e: Event): seq<Ask> {
    match e
    case Request(name, service, how, known, _) =>
      var user := Upto(name, ':');
      var deferred := user == "" && (how == "gssapi" || how == "gssapi-with-mic");
      var reset := a.attempt < MAX_ATTEMPTS && (a.attempt == 0 || user != a.user || user == "");
      if reset && service == "ssh-connection" && !deferred then [Lookup(user, known)] else []
    case Reply(_, _, named, known, _) =>
      if a.user == "" && named.Some? && named.value != "" then [Lookup(named.value, known)] else []
  }

  predicate OnlyAnswers(asks: seq<Ask>) { forall i :: 0 <= i < |asks| ==> asks[i].Answer? }

  predicate CanExchange(cfg: Config, s: Server, x: Exchange) {
    && Possible(s.child, x.e) && s.monitor.phase == Running && OnlyAnswers(x.answers)
    && ValidAsks(cfg, s.monitor, Lookups(s.child, x.e) + x.answers)
  }

  function Served(cfg: Config, s: Server, x: Exchange): Server
    requires CanExchange(cfg, s, x)
  {
    Server(Step(cfg, s.child, x.e), Turns(cfg, s.monitor, Lookups(s.child, x.e) + x.answers))
  }

  predicate ValidServed(cfg: Config, s: Server, xs: seq<Exchange>)
    decreases |xs|
  {
    xs == [] || (CanExchange(cfg, s, xs[0]) && ValidServed(cfg, Served(cfg, s, xs[0]), xs[1..]))
  }

  function AllServed(cfg: Config, s: Server, xs: seq<Exchange>): Server
    requires ValidServed(cfg, s, xs)
    decreases |xs|
  {
    if xs == [] then s else AllServed(cfg, Served(cfg, s, xs[0]), xs[1..])
  }

  /** A child that takes its user for valid has that user looked up. */
  predicate Linked(s: Server) {
    s.child.phase != Ended && s.child.valid ==> s.monitor.user == s.child.user
  }

  predicate ServerInv(cfg: Config, s: Server) {
    Inv(cfg, s.child) && MonitorInv(cfg, s.monitor) && Linked(s)
  }

  /** Answers leave the user of the monitor alone. */
  lemma {:induction false} AnswersKeepUser(cfg: Config, m: Monitor, asks: seq<Ask>)
    requires OnlyAnswers(asks)
    ensures Turns(cfg, m, asks).user == m.user
    decreases |asks|
  {
    hide UpdateLists;
    if asks != [] {
      AnswersKeepUser(cfg, Turn(cfg, m, asks[0]), asks[1..]);
    }
  }

  lemma LookupFirst(cfg: Config, m: Monitor, asks: seq<Ask>, answers: seq<Ask>)
    requires |asks| <= 1
    ensures Turns(cfg, m, asks + answers) == Turns(cfg, if asks == [] then m else Turn(cfg, m, asks[0]), answers)
    ensures ValidAsks(cfg, m, asks + answers) <==>
      if asks == [] then ValidAsks(cfg, m, answers)
      else Askable(m, asks[0]) && ValidAsks(cfg, Turn(cfg, m, asks[0]), answers)
  {
    hide Turn, Askable;
    if asks == [] {
      assert asks + answers == answers;
    } else {
      assert asks == [asks[0]];
      assert (asks + answers)[1..] == answers && (asks + answers)[0] == asks[0];
    }
  }

  /** The monitor once the lookup of an event is done. */
  function AfterLookup(cfg: Config, s: Server, e: Event): Monitor {
    var asks := Lookups(s.child, e);
    if asks == [] then s.monitor else Turn(cfg, s.monitor, asks[0])
  }

  /** Where the child finishes with a valid user, the monitor has looked that user up. */
  lemma LookupLinks(cfg: Config, s: Server, e: Event)
    requires Linked(s) && Possible(s.child, e) && s.monitor.phase == Running
    ensures var a, m := Step(cfg, s.child, e), AfterLookup(cfg, s, e);
      a.phase != Ended && a.valid ==> m.user == a.user
  {
    hide Finish, MayRun, EnabledLists, Upto;
    var a := s.child;
    if e.Reply? {
      FinishKeepsUser(cfg, SetUsername(a, e), e.name, e.sub, e.v);
    } else if a.attempt < MAX_ATTEMPTS {
      var b := Identify(cfg, a, e);
      var run := MayRun(cfg, b, e.name) && b.failures < cfg.maxTries;
      var c := if run && e.name == "none" then b.(noneEnabled := false) else b;
      FinishKeepsUser(cfg, c, e.name, None, if run then e.v else NOT_RUN);
    }
  }

  lemma FinishKeepsUser(cfg: Config, a: Auth, name: string, sub: Option<string>, v: Verdict)
    ensures Finish(cfg, a, name, sub, v).user == a.user && Finish(cfg, a, name, sub, v).valid == a.valid
  {
    hide UpdateLists;
  }

  lemma ServedKeeps(cfg: Config, s: Server, x: Exchange)
    requires WellFormed(cfg) && ServerInv(cfg, s) && CanExchange(cfg, s, x)
    ensures ServerInv(cfg, Served(cfg, s, x))
  {
    hide Inv, MonitorInv, Step, Lookups, Turns, Turn, ValidAsks, WellFormed, Possible;
    StepKeeps(cfg, s.child, x.e);
    TurnsKeep(cfg, s.monitor, Lookups(s.child, x.e) + x.answers);
    LookupLinks(cfg, s, x.e);
    AtMostOne(s.child, x.e);
    LookupFirst(cfg, s.monitor, Lookups(s.child, x.e), x.answers);
    AnswersKeepUser(cfg, AfterLookup(cfg, s, x.e), x.answers);
  }

  lemma AtMostOne(a: Auth, e: Event)
    ensures |Lookups(a, e)| <= 1
  {
  }

  lemma {:induction false} AllServedKeeps(cfg: Config, s: Server, xs: seq<Exchange>)
    requires WellFormed(cfg) && ServerInv(cfg, s) && ValidServed(cfg, s, xs)
    ensures ServerInv(cfg, AllServed(cfg, s, xs))
    decreases |xs|
  {
    hide ServerInv, Served, CanExchange, WellFormed;
    if xs != [] {
      ServedKeeps(cfg, s, xs[0]);
      AllServedKeeps(cfg, Served(cfg, s, xs[0]), xs[1..]);
    }
  }

  /** In every run of the two processes in which both succeed, they agree on the user, who is valid; the successes
      since that user was looked up are all that user's; and, if AuthenticationMethods is set, these alone answer one
      enabled list in order, the last finishing it. */
  lemma BothSucceedOneUser(cfg: Config, xs: seq<Exchange>)
    requires WellFormed(cfg) && ValidServed(cfg, OPENED, xs)
    requires var s := AllServed(cfg, OPENED, xs); s.child.phase == Succeeded && s.monitor.phase == Succeeded
    ensures var s := AllServed(cfg, OPENED, xs);
      && s.child.valid && s.monitor.user == s.child.user
      && s.monitor.since != [] && AllBy(s.monitor.since, s.child.user)
      && (Configured(cfg) ==> SomeFinished(Goals(cfg), s.monitor.since))
  {
    AllServedKeeps(cfg, OPENED, xs);
  }

  // ---- When both succeed ------------------------------------------------

  /** The monitor verifies what the child accepts and nothing else. */
  predicate Reported(a: Auth, b: Auth, answers: seq<Ask>) {
    if |b.log| > |a.log| then
      var w := b.log[|b.log| - 1]; answers == [Answer(w.name, w.sub, true, false)]
    else forall i :: 0 <= i < |answers| ==> answers[i].Answer? && !answers[i].ok
  }

  /** A run in which it does so at every packet. */
  predicate ReportedRun(cfg: Config, s: Server, xs: seq<Exchange>)
    requires ValidServed(cfg, s, xs)
    decreases |xs|
  {
    xs == [] ||
    (Reported(s.child, Step(cfg, s.child, xs[0].e), xs[0].answers) && ReportedRun(cfg, Served(cfg, s, xs[0]), xs[1..]))
  }

  predicate EndsWith(log: seq<Win>, since: seq<Win>) { |since| <= |log| && log[|log| - |since|..] == since }

  lemma {:induction false} EmbedsLater(ts: seq<string>, j: nat, log: seq<Win>, d: nat, n: nat)
    requires j <= |ts| && d + n <= |log| && Embeds(ts, j, log[d..], n)
    ensures Embeds(ts, j, log, d + n)
    decreases n
  {
    hide Answers;
    if n > 0 && j > 0 {
      assert log[d..][n - 1] == log[d + n - 1];
      if Embeds(ts, j, log[d..], n - 1) {
        EmbedsLater(ts, j, log, d, n - 1);
      } else {
        EmbedsLater(ts, j - 1, log, d, n - 1);
      }
    }
  }

  /** What finishes a list counted from a later point finishes it counted from the start. */
  lemma FinishedLater(goals: seq<seq<string>>, log: seq<Win>, since: seq<Win>)
    requires EndsWith(log, since) && SomeFinished(goals, since)
    ensures SomeFinished(goals, log)
  {
    hide Answers, Embeds;
    var i :| 0 <= i < |goals| && Finishes(goals[i], since);
    var d := |log| - |since|;
    assert log[|log| - 1] == since[|since| - 1];
    EmbedsLater(goals[i], |goals[i]| - 1, log, d, |since| - 1);
    assert Finishes(goals[i], log);
  }

  lemma AppendBoth(log: seq<Win>, since: seq<Win>, w: Win)
    requires EndsWith(log, since)
    ensures EndsWith(log + [w], since + [w])
  {
    assert (log + [w])[|log| - |since|..] == log[|log| - |since|..] + [w];
  }

  /** A success the child accepts ends its authentication exactly if it finishes an enabled list. */
  lemma FinishDecides(cfg: Config, a: Auth, name: string, sub: Option<string>, v: Verdict)
    requires WellFormed(cfg) && Inv(cfg, a) && a.phase == Running && a.attempt > 0 && (sub.Some? ==> ',' !in sub.value)
    ensures var b := Finish(cfg, a, name, sub, v);
      b.log != a.log ==> a.valid && (b.phase == Succeeded <==> (Configured(cfg) ==> SomeFinished(Goals(cfg), b.log)))
  {
    hide UpdateLists, SomeFinished, Tracks;
    if v.authenticated && a.valid && !v.postponed && !v.rootDenied && ByName(cfg.table, name).Some? {
      AcceptKeeps(cfg, a, Win(ByName(cfg.table, name).value.name, sub, a.user), v);
    }
  }

  /** The same of an event; and the monitor has then looked the user up. */
  lemma GrowthDecides(cfg: Config, s: Server, e: Event)
    requires WellFormed(cfg) && Inv(cfg, s.child) && Linked(s) && Possible(s.child, e) && s.monitor.phase == Running
    ensures var a, b := s.child, Step(cfg, s.child, e);
      b.log != a.log ==>
        && (b.phase == Succeeded <==> (Configured(cfg) ==> SomeFinished(Goals(cfg), b.log)))
        && |b.log| == |a.log| + 1 && b.log[..|a.log|] == a.log
        && b.log[|a.log|].user == AfterLookup(cfg, s, e).user
  {
    hide Finish, MayRun, EnabledLists, Upto, Tracks, SomeFinished, Configured, WellFormed;
    var a := s.child;
    AcceptedUser(cfg, a, e);
    if e.Reply? {
      FinishDecides(cfg, SetUsername(a, e), e.name, e.sub, e.v);
    } else if a.attempt < MAX_ATTEMPTS {
      IdentifyKeeps(cfg, a, e);
      var b := Identify(cfg, a, e);
      if b.phase == Running && e.service == b.service {
        var run := MayRun(cfg, b, e.name) && b.failures < cfg.maxTries;
        var c := if run && e.name == "none" then b.(noneEnabled := false) else b;
        FinishDecides(cfg, c, e.name, None, if run then e.v else NOT_RUN);
      }
    }
  }

  /** While both go on, the monitor's successes are the latest of the child's, and its lists follow them exactly. */
  predicate InStep(cfg: Config, a: Auth, m: Monitor) {
    EndsWith(a.log, m.since) && (m.valid && Configured(cfg) ==> Tracks(m.lists, Goals(cfg), m.since))
  }

  lemma LookupInStep(cfg: Config, s: Server, e: Event)
    requires WellFormed(cfg) && s.monitor.phase == Running && InStep(cfg, s.child, s.monitor)
    ensures AfterLookup(cfg, s, e).phase == Running && InStep(cfg, s.child, AfterLookup(cfg, s, e))
  {
    hide Tracks, EnabledLists, Goals;
    SetupTracks(cfg);
  }

  lemma {:induction false} RefusalsOnly(cfg: Config, m: Monitor, asks: seq<Ask>)
    requires forall i :: 0 <= i < |asks| ==> asks[i].Answer? && !asks[i].ok
    ensures var n := Turns(cfg, m, asks); n.lists == m.lists && n.since == m.since && n.valid == m.valid
    decreases |asks|
  {
    if asks != [] {
      RefusalsOnly(cfg, Turn(cfg, m, asks[0]), asks[1..]);
    }
  }

  /** A verified success in step: the monitor lets the user in exactly if a list is finished since the lookup. */
  lemma DecideExactly(cfg: Config, m: Monitor, w: Win)
    requires m.phase == Running && m.valid && GoodWin(w) && (Configured(cfg) ==> Tracks(m.lists, Goals(cfg), m.since))
    ensures var n := Decide(cfg, m, w, false);
      && n.since == m.since + [w] && n.valid
      && (n.phase == Succeeded <==> (Configured(cfg) ==> SomeFinished(Goals(cfg), n.since)))
      && (n.phase == Running && Configured(cfg) ==> Tracks(n.lists, Goals(cfg), n.since))
  {
    hide TracksOne, SomeFinished, Goals, Finishes;
    if Configured(cfg) {
      UpdateTracks(m.lists, 0, Goals(cfg), m.since, w);
    }
  }

  lemma OneAnswer(cfg: Config, m: Monitor, ask: Ask)
    ensures Turns(cfg, m, [ask]) == Turn(cfg, m, ask) && (ValidAsks(cfg, m, [ask]) <==> Askable(m, ask))
  {
    hide Turn, Askable;
    assert [ask][1..] == [];
    assert Turns(cfg, Turn(cfg, m, ask), []) == Turn(cfg, m, ask);
    assert ValidAsks(cfg, Turn(cfg, m, ask), []);
  }

  /** One packet in step: if the child accepts a success, both end in success exactly if the successes since the lookup
      finish an enabled list; and if both go on, they stay in step. */
  lemma ReportedStep(cfg: Config, s: Server, x: Exchange)
    requires WellFormed(cfg) && ServerInv(cfg, s) && CanExchange(cfg, s, x) && InStep(cfg, s.child, s.monitor)
    requires Reported(s.child, Step(cfg, s.child, x.e), x.answers)
    ensures var t := Served(cfg, s, x);
      && (t.child.log != s.child.log ==>
            (t.child.phase == Succeeded && t.monitor.phase == Succeeded <==>
               (Configured(cfg) ==> SomeFinished(Goals(cfg), t.monitor.since))))
      && (t.child.phase == Running && t.monitor.phase == Running ==> InStep(cfg, t.child, t.monitor))
  {
    hide Inv, MonitorInv, Step, Lookups, Turns, Turn, ValidAsks, WellFormed, Possible, Tracks, SomeFinished, Configured;
    var m, t := AfterLookup(cfg, s, x.e), Served(cfg, s, x);
    AtMostOne(s.child, x.e);
    LookupFirst(cfg, s.monitor, Lookups(s.child, x.e), x.answers);
    LookupInStep(cfg, s, x.e);
    GrowthDecides(cfg, s, x.e);
    AcceptedUser(cfg, s.child, x.e);
    if t.child.log != s.child.log {
      SuccessInStep(cfg, s.child, t.child, m, x.answers[0], t.monitor);
    } else {
      RefusalsOnly(cfg, m, x.answers);
    }
  }

  lemma SuccessInStep(cfg: Config, a: Auth, b: Auth, m: Monitor, ask: Ask, n: Monitor)
    requires m.phase == Running && InStep(cfg, a, m) && ValidAsks(cfg, m, [ask]) && n == Turns(cfg, m, [ask])
    requires |b.log| == |a.log| + 1 && b.log[..|a.log|] == a.log && b.log[|a.log|].user == m.user
    requires var w := b.log[|a.log|]; ask == Answer(w.name, w.sub, true, false)
    requires b.phase == Succeeded <==> (Configured(cfg) ==> SomeFinished(Goals(cfg), b.log))
    ensures b.phase == Succeeded && n.phase == Succeeded <==> (Configured(cfg) ==> SomeFinished(Goals(cfg), n.since))
    ensures n.phase == Running ==> InStep(cfg, b, n)
  {
    hide Tracks, SomeFinished, Configured, Decide, Goals, Turns, ValidAsks;
    var w := b.log[|a.log|];
    OneAnswer(cfg, m, ask);
    DecideExactly(cfg, m, w);
    AppendBoth(a.log, m.since, w);
    assert b.log == a.log + [w];
    if SomeFinished(Goals(cfg), n.since) {
      FinishedLater(Goals(cfg), b.log, n.since);
    }
  }

  predicate BothRun(s: Server) { s.child.phase == Running && s.monitor.phase == Running }

  lemma {:induction false} ReportedKeeps(cfg: Config, s: Server, xs: seq<Exchange>)
    requires WellFormed(cfg) && ServerInv(cfg, s) && ValidServed(cfg, s, xs) && ReportedRun(cfg, s, xs)
    requires BothRun(s) ==> InStep(cfg, s.child, s.monitor)
    ensures BothRun(AllServed(cfg, s, xs)) ==> InStep(cfg, AllServed(cfg, s, xs).child, AllServed(cfg, s, xs).monitor)
    decreases |xs|
  {
    hide ServerInv, Served, WellFormed, InStep, Step, ValidAsks, Reported, Lookups;
    if xs != [] {
      ServedKeeps(cfg, s, xs[0]);
      ReportedStep(cfg, s, xs[0]);
      ReportedKeeps(cfg, Served(cfg, s, xs[0]), xs[1..]);
    }
  }

  /** At any point of any run in which the monitor verifies just what the child accepts: an accepted success makes both
      processes succeed if and only if, with it, the successes since the last lookup finish an enabled list. */
  lemma BothSucceedExactly(cfg: Config, xs: seq<Exchange>, x: Exchange)
    requires WellFormed(cfg) && ValidServed(cfg, OPENED, xs) && ReportedRun(cfg, OPENED, xs)
    requires var s := AllServed(cfg, OPENED, xs);
      && CanExchange(cfg, s, x) && Reported(s.child, Step(cfg, s.child, x.e), x.answers)
      && Step(cfg, s.child, x.e).log != s.child.log
    ensures var t := Served(cfg, AllServed(cfg, OPENED, xs), x);
      t.child.phase == Succeeded && t.monitor.phase == Succeeded <==>
      (Configured(cfg) ==> SomeFinished(Goals(cfg), t.monitor.since))
  {
    hide Step, ValidAsks, Reported, Lookups, Turns, SomeFinished, Goals;
    AllServedKeeps(cfg, OPENED, xs);
    ReportedKeeps(cfg, OPENED, xs);
    ReportedStep(cfg, AllServed(cfg, OPENED, xs), x);
  }

  // ---- Two users --------------------------------------------------------

  const ALICE: Exchange :=
    Exchange(Request("alice", "ssh-connection", "publickey", true, YES), [Answer("publickey", None, true, false)])
  const BOB: Exchange :=
    Exchange(Request("bob", "ssh-connection", "password", true, YES), [Answer("password", None, true, false)])

  const HALF: Monitor := Monitor(Running, "alice", true, 0, ["password"], [Win("publickey", None, "alice")])

  lemma AliceHalfway()
    ensures Lookups(START, ALICE.e) == [Lookup("alice", true)]
    ensures ValidAsks(TWO_METHODS, IDLE, Lookups(START, ALICE.e) + ALICE.answers)
    ensures Turns(TWO_METHODS, IDLE, Lookups(START, ALICE.e) + ALICE.answers) == HALF
  {
    hide EnabledLists, RemoveMethod, Upto, Entries, Turns, ValidAsks;
    TwoMethodLists();
    TwoMethodEntries();
    WholeName("alice");
    RemoveFirstEntry("publickey,password", "publickey", None);
    assert ["publickey", "password"][1..] == ["password"];
    var m := LookUp(TWO_METHODS, IDLE, "alice", true);
    assert UpdateLists(["publickey,password"], Win("publickey", None, "alice")) == Updated(["password"], true, false);
    LookupFirst(TWO_METHODS, IDLE, Lookups(START, ALICE.e), ALICE.answers);
    OneAnswer(TWO_METHODS, m, ALICE.answers[0]);
  }

  lemma BobStopped()
    ensures Lookups(AFTER_FIRST, BOB.e) == [Lookup("bob", true)]
    ensures ValidAsks(TWO_METHODS, HALF, Lookups(AFTER_FIRST, BOB.e) + BOB.answers)
    ensures Turns(TWO_METHODS, HALF, Lookups(AFTER_FIRST, BOB.e) + BOB.answers).phase == Ended
  {
    hide EnabledLists, RemoveMethod, Upto, Entries, Turns, ValidAsks;
    TwoMethodLists();
    TwoMethodEntries();
    WholeName("bob");
    RemoveFirstEntry("publickey,password", "password", None);
    var m := LookUp(TWO_METHODS, HALF, "bob", true);
    assert UpdateLists(["publickey,password"], Win("password", None, "bob")) == Updated(["publickey,password"], false, false);
    LookupFirst(TWO_METHODS, HALF, Lookups(AFTER_FIRST, BOB.e), BOB.answers);
    OneAnswer(TWO_METHODS, m, BOB.answers[0]);
  }

  /** The run in which two users finish one list for auth2.c: the monitor has set its lists up again for the second
      user, whose method no list starts with, and ends. */
  lemma MonitorStopsTwoUsers()
    ensures ValidServed(TWO_METHODS, OPENED, [ALICE, BOB])
    ensures var s := AllServed(TWO_METHODS, OPENED, [ALICE, BOB]); s.child.phase == Succeeded && s.monitor.phase == Ended
  {
    hide Step, Lookups, Turns, ValidAsks, Possible;
    FirstSuccess(ALICE.e);
    SecondSuccess(BOB.e);
    AliceHalfway();
    BobStopped();
    var s := Served(TWO_METHODS, OPENED, ALICE);
    assert s == Server(AFTER_FIRST, HALF);
    assert [ALICE, BOB][1..] == [BOB] && [BOB][1..] == [];
    var t := Served(TWO_METHODS, s, BOB);
    assert ValidServed(TWO_METHODS, t, []) && AllServed(TWO_METHODS, t, []) == t;
    assert ValidServed(TWO_METHODS, s, [BOB]) && AllServed(TWO_METHODS, s, [BOB]) == t;
  }

  // ---- The monitor process ----------------------------------------------

  /** monitor_child_preauth, with the context it shares with its handlers. */
  class Preauth<K(==)> {
    const ctxt: Authctxt<K>
    var phase: Phase
    ghost var since: seq<Win>

    ghost function Model(): Monitor
      reads this, ctxt
    {
      Monitor(phase, ctxt.user, ctxt.valid, ctxt.failures, ctxt.lists, since)
    }

    /** The loop goes on only within MaxAuthTries. */
    predicate Valid()
      reads this, ctxt
    {
      phase == Running ==> ctxt.failures <= ctxt.cfg.maxTries
    }

    constructor (cfg: Config)
      ensures Valid() && Model() == IDLE && ctxt.cfg == cfg && fresh(ctxt)
    {
      ctxt := new Authctxt(cfg);
      phase, since := Running, [];
    }

    /** mm_answer_pwnamallow. */
    method AnswerPwnamallow(user: string, known: bool)
      requires Valid() && phase == Running
      modifies this, ctxt
      ensures Valid() && Model() == Turn(ctxt.cfg, old(Model()), Lookup(user, known))
    {
      ctxt.user := user;
      if known {
        ctxt.valid := true;
      }
      since := [];
      var _ := ctxt.SetupMethodsLists();
    }

    /** The rest of a turn, after a handler has decided for or against the user. */
    method TakeAnswer(name: string, sub: Option<string>, ok: bool, rootDenied: bool)
      requires Valid() && phase == Running
      modifies this, ctxt
      ensures Valid() && Model() == Turn(ctxt.cfg, old(Model()), Answer(name, sub, ok, rootDenied))
    {
      hide UpdateFrom;
      var authenticated, partial := ok, false;
      if ok {
        ghost var w := Win(name, sub, ctxt.user);
        since := since + [w];
      }
      if authenticated && Configured(ctxt.cfg) {
        NotFoundKeeps(ctxt.lists, 0, Win(name, sub, ctxt.user));
        var found, complete := ctxt.UpdateMethodsLists(Win(name, sub, ctxt.user));
        if !found {
          phase := Ended;
          return;
        }
        if !complete {
          authenticated, partial := false, true;
        }
      }
      if authenticated && rootDenied {
        authenticated := false;
      }
      if !partial && !authenticated {
        ctxt.failures := ctxt.failures + 1;
      }
      if ctxt.failures > ctxt.cfg.maxTries {
        phase := Ended;
        return;
      }
      if authenticated {
        phase := if ctxt.valid then Succeeded else Ended;
      }
    }
  }
}
