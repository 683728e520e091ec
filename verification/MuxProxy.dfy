/**
 The mux proxy of channels.c: a master connection forwards the channels of its
 mux clients over one channel table. It replaces each client's channel id by
 its own on the way up, restores it on the way down, and follows CLOSE messages
 (section 5.3 of RFC 4254) to know when a proxied channel is over.
 */
module MuxProxy {
  import opened Octets
  import opened Options
  import opened Wire

  const CHANNELS_MAX_CHANNELS: nat := 16 * 1024
  const CHANNELS_GROWTH: nat := 10

  /** A channel proxied for the client at table index `client`, a mux client, or anything else. */
  datatype Kind = Proxy(client: nat, downId: nat) | Client | Other

  /** `serial` stands for the identity of the allocated object. */
  datatype Chan = Chan(self: nat, serial: nat, kind: Kind, remote: Option<nat>, closeSent: bool, closeRcvd: bool)

  datatype Slot = Free | Live(c: Chan)

  type Table = seq<Slot>

  predicate HasRemote(s: Slot, remote: nat) { s.Live? && s.c.remote == Some(remote) }

  predicate ProxyOf(s: Slot, client: nat) { s.Live? && s.c.kind.Proxy? && s.c.kind.client == client }

  // ---- The table --------------------------------------------------------

  function FirstFree(t: Table): (i: nat)
    ensures i <= |t| && (i < |t| ==> t[i].Free?)
    ensures forall j :: 0 <= j < i ==> t[j].Live?
  {
    if t == [] then 0 else if t[0].Free? then 0 else 1 + FirstFree(t[1..])
  }

  function FirstRemote(t: Table, remote: nat): (i: nat)
    ensures i <= |t| && (i < |t| ==> HasRemote(t[i], remote))
    ensures forall j :: 0 <= j < i ==> !HasRemote(t[j], remote)
  {
    if t == [] then 0 else if HasRemote(t[0], remote) then 0 else 1 + FirstRemote(t[1..], remote)
  }

  predicate RoomFor(t: Table) { FirstFree(t) < |t| || |t| <= CHANNELS_MAX_CHANNELS }

  /** The table of channel_new before the new channel is stored: grown by ten when full. */
  function Grown(t: Table): (r: Table)
    ensures FirstFree(t) < |r| && |t| <= |r| && r[..|t|] == t && forall j :: |t| <= j < |r| ==> r[j].Free?
  {
    if FirstFree(t) < |t| then t else t + seq(CHANNELS_GROWTH, _ => Free)
  }

  function NewChannel(t: Table, kind: Kind, remote: Option<nat>, serial: nat): Table {
    Grown(t)[FirstFree(t) := Live(Chan(FirstFree(t), serial, kind, remote, false, false))]
  }

  function Detached(s: Slot, client: nat): Slot {
    if ProxyOf(s, client) then Live(s.c.(kind := Other)) else s
  }

  /** channel_free: the proxied channels of a freed client go on as ordinary, closing channels. */
  function FreeChannel(t: Table, i: nat): Table
    requires i < |t| && t[i].Live?
  {
    var d := if t[i].c.kind.Client? then seq(|t|, j requires 0 <= j < |t| => Detached(t[j], i)) else t;
    d[i := Free]
  }

  /** One more CLOSE for a channel: the second direction frees it. */
  function CloseFromClient(t: Table, i: nat): Table
    requires i < |t| && t[i].Live?
  {
    if t[i].c.closeRcvd then FreeChannel(t, i) else t[i := Live(t[i].c.(closeSent := true))]
  }

  function CloseFromServer(t: Table, i: nat): Table
    requires i < |t| && t[i].Live?
  {
    if t[i].c.closeSent then FreeChannel(t, i) else t[i := Live(t[i].c.(closeRcvd := true))]
  }

  // ---- Messages and steps -----------------------------------------------

  /** What a mux client sends: a short CLOSE carries no id, and Refused is what does not parse or is not supported. */
  datatype DownMsg =
    | Open(ctype: CString, id: nat, rest: Bytes)
    | OpenConfirmation(remote: nat, id: nat, rest: Bytes)
    | Forward(host: CString, port: nat, payload: Bytes)
    | Close(closing: Option<nat>, payload: Bytes)
    | Pass(typ: byte, payload: Bytes)
    | Refused

  /** What the server sends to one of the proxy's channel ids. */
  datatype UpMsg =
    | Confirmed(remote: Option<nat>, payload: Bytes)
    | Closed(payload: Bytes)
    | Data(payload: Bytes)

  datatype Out = Nothing | ToServer(down: DownMsg) | ToClient(client: nat, id: nat, up: UpMsg)

  /** A channel opened for a client, object number `serial`, under a client id. */
  datatype Opening = Opening(at: nat, client: nat, serial: nat, downId: nat)

  /** A connection the server may forward to the client, object number `serial`. */
  datatype Permit = Permit(host: CString, port: nat, client: nat, serial: nat)

  /** `permits` are the entries of the permission list, None once cleared. */
  datatype State = State(t: Table, serial: nat, log: seq<Opening>, permits: seq<Option<Permit>>)

  datatype Step =
    | NewOther(kind: Kind, remoteId: Option<nat>)
    | Release(at: nat)
    | Down(from: nat, down: DownMsg)
    | Up(at: nat, up: UpMsg)

  /** The channel takes part in proxying: its messages go to a client. */
  predicate Attached(t: Table, i: nat) { i < |t| && t[i].Live? && t[i].c.kind.Proxy? }

  predicate IsClient(t: Table, i: nat) { i < |t| && t[i].Live? && t[i].c.kind.Client? }

  predicate Enabled(s: State, step: Step) {
    match step
    case NewOther(kind, remote) => !kind.Proxy? && (kind.Client? ==> remote == None) && RoomFor(s.t)
    case Release(i) => i < |s.t| && s.t[i].Live? && !s.t[i].c.kind.Proxy?
    case Down(from, m) => IsClient(s.t, from) && (m.Open? || m.OpenConfirmation? ==> RoomFor(s.t))
    case Up(i, m) => true
  }

  /** The number of the object at an index. */
  function SerialAt(t: Table, i: nat): nat { if i < |t| && t[i].Live? then t[i].c.serial else 0 }

  function AddChannel(s: State, kind: Kind, remote: Option<nat>): State {
    State(NewChannel(s.t, kind, remote, s.serial), s.serial + 1,
          if kind.Proxy? then
            s.log + [Opening(FirstFree(s.t), kind.client, SerialAt(s.t, kind.client), kind.downId)]
          else s.log,
          s.permits)
  }

  /** mux_remove_remote_forwardings. */
  function Cleared(ps: seq<Option<Permit>>, client: nat): seq<Option<Permit>> {
    seq(|ps|, k requires 0 <= k < |ps| => if ps[k].Some? && ps[k].value.client == client then None else ps[k])
  }

  /** channel_free, with the permissions of a client. */
  function Released(s: State, i: nat): State
    requires i < |s.t| && s.t[i].Live?
  {
    s.(t := FreeChannel(s.t, i), permits := if s.t[i].c.kind.Client? then Cleared(s.permits, i) else s.permits)
  }

  /** channel_proxy_downstream. */
  function Downstream(s: State, from: nat, m: DownMsg): (State, Out)
    requires IsClient(s.t, from)
  {
    match m
    case Open(ctype, id, rest) =>
      (AddChannel(s, Proxy(from, id), None), ToServer(Open(ctype, FirstFree(s.t), rest)))
    case OpenConfirmation(remote, id, rest) =>
      (AddChannel(s, Proxy(from, id), Some(remote)), ToServer(OpenConfirmation(remote, FirstFree(s.t), rest)))
    case Close(Some(remote), _) =>
      var i := FirstRemote(s.t, remote);
      (if i < |s.t| then s.(t := CloseFromClient(s.t, i)) else s, ToServer(m))
    case Forward(host, port, _) =>
      (s.(permits := s.permits + [Some(Permit(host, port, from, s.t[from].c.serial))]), ToServer(m))
    case Refused => (s, Nothing)
    case _ => (s, ToServer(m))
  }

  /** channel_proxy_upstream. */
  function Upstream(s: State, i: nat, m: UpMsg): (State, Out) {
    if !Attached(s.t, i) then (s, Nothing)
    else
      (match m
       case Confirmed(Some(remote), _) => s.(t := s.t[i := Live(s.t[i].c.(remote := Some(remote)))])
       case Closed(_) => s.(t := CloseFromServer(s.t, i))
       case _ => s,
       ToClient(s.t[i].c.kind.client, s.t[i].c.kind.downId, m))
  }

  function Apply(s: State, step: Step): (State, Out)
    requires Enabled(s, step)
  {
    match step
    case NewOther(kind, remote) => (AddChannel(s, kind, remote), Nothing)
    case Release(i) => (Released(s, i), Nothing)
    case Down(from, m) => Downstream(s, from, m)
    case Up(i, m) => Upstream(s, i, m)
  }

  // ---- Invariants -------------------------------------------------------

  /** Ids are table indices; a proxied channel belongs to a live client and carries the ids
      of the latest opening at its place. */
  predicate SlotInv(t: Table, serial: nat, log: seq<Opening>, i: nat)
    requires i < |t|
  {
    t[i].Live? ==>
      && t[i].c.self == i && t[i].c.serial < serial && (t[i].c.kind.Client? ==> t[i].c.remote == None)
      && (t[i].c.kind.Proxy? ==>
            && IsClient(t, t[i].c.kind.client)
            && Latest(log, i) == Some(Opening(i, t[i].c.kind.client, SerialAt(t, t[i].c.kind.client), t[i].c.kind.downId)))
  }

  predicate Inv(s: State) {
    && (forall i :: 0 <= i < |s.t| ==> SlotInv(s.t, s.serial, s.log, i))
    && forall i, j :: 0 <= i < j < |s.t| && s.t[i].Live? && s.t[j].Live? ==> s.t[i].c.serial != s.t[j].c.serial
  }

  /** The last time a channel was opened at index `i`. */
  function Latest(log: seq<Opening>, i: nat): Option<Opening> {
    if log == [] then None
    else if log[|log| - 1].at == i then Some(log[|log| - 1])
    else Latest(log[..|log| - 1], i)
  }

  lemma AddKeeps(s: State, kind: Kind, remote: Option<nat>)
    requires Inv(s) && (kind.Proxy? ==> IsClient(s.t, kind.client)) && (kind.Client? ==> remote == None)
    ensures Inv(AddChannel(s, kind, remote))
  {
    var r := AddChannel(s, kind, remote);
    var f := FirstFree(s.t);
    assert forall j :: 0 <= j < |s.t| && j != f ==> r.t[j] == s.t[j];
    assert kind.Proxy? ==> r.log[..|r.log| - 1] == s.log;
    forall i | 0 <= i < |r.t| ensures SlotInv(r.t, r.serial, r.log, i) {
      assert i < |s.t| ==> SlotInv(s.t, s.serial, s.log, i);
      assert i != f && r.t[i].Live? ==> i < |s.t|;
    }
    forall j | 0 <= j < |r.t| && j != f && r.t[j].Live? ensures j < |s.t| && r.t[j].c.serial < s.serial {
      assert j < |s.t| && SlotInv(s.t, s.serial, s.log, j);
    }
  }

  lemma FreeKeeps(s: State, i: nat)
    requires Inv(s) && i < |s.t| && s.t[i].Live?
    ensures Inv(s.(t := FreeChannel(s.t, i))) && Inv(Released(s, i))
  {
    var r := FreeChannel(s.t, i);
    assert |r| == |s.t| && r[i] == Free;
    assert forall j :: 0 <= j < |r| && r[j].Live? ==>
      s.t[j].Live? && r[j].c.serial == s.t[j].c.serial && (r[j] == s.t[j] || r[j].c.kind == Other);
    forall j | 0 <= j < |r| ensures SlotInv(r, s.serial, s.log, j) {
      assert SlotInv(s.t, s.serial, s.log, j);
    }
  }

  lemma UpdateKeeps(s: State, i: nat, c: Chan)
    requires Inv(s) && i < |s.t| && s.t[i].Live?
    requires c.self == s.t[i].c.self && c.serial == s.t[i].c.serial && c.kind == s.t[i].c.kind
    requires c.kind.Client? ==> c.remote == None
    ensures Inv(s.(t := s.t[i := Live(c)]))
  {
    var r := s.t[i := Live(c)];
    forall j | 0 <= j < |r| ensures SlotInv(r, s.serial, s.log, j) {
      assert SlotInv(s.t, s.serial, s.log, j);
    }
  }

  lemma CloseKeeps(s: State, i: nat)
    requires Inv(s) && i < |s.t| && s.t[i].Live?
    ensures Inv(s.(t := CloseFromClient(s.t, i))) && Inv(s.(t := CloseFromServer(s.t, i)))
  {
    assert SlotInv(s.t, s.serial, s.log, i);
    FreeKeeps(s, i);
    UpdateKeeps(s, i, s.t[i].c.(closeSent := true));
    UpdateKeeps(s, i, s.t[i].c.(closeRcvd := true));
  }

  lemma StepKeeps(s: State, step: Step)
    requires Inv(s) && Enabled(s, step)
    ensures Inv(Apply(s, step).0)
  {
    match step
    case NewOther(kind, remote) => AddKeeps(s, kind, remote);
    case Release(i) => FreeKeeps(s, i);
    case Down(from, Open(_, id, _)) => AddKeeps(s, Proxy(from, id), None);
    case Down(from, OpenConfirmation(remote, id, _)) => AddKeeps(s, Proxy(from, id), Some(remote));
    case Down(_, Close(Some(remote), _)) =>
      if FirstRemote(s.t, remote) < |s.t| {
        CloseKeeps(s, FirstRemote(s.t, remote));
      }
    case Up(i, m) =>
      if Attached(s.t, i) {
        CloseKeeps(s, i);
        if m.Confirmed? {
          UpdateKeeps(s, i, s.t[i].c.(remote := m.remote));
        }
      }
    case _ =>
  }

  // ---- Runs -------------------------------------------------------------

  predicate ValidRun(s: State, steps: seq<Step>)
    decreases |steps|
  {
    steps == [] || (Enabled(s, steps[0]) && ValidRun(Apply(s, steps[0]).0, steps[1..]))
  }

  function Final(s: State, steps: seq<Step>): State
    requires ValidRun(s, steps)
    decreases |steps|
  {
    if steps == [] then s else Final(Apply(s, steps[0]).0, steps[1..])
  }

  const EMPTY: State := State([], 0, [], [])

  lemma {:induction false} RunKeeps(s: State, steps: seq<Step>)
    requires Inv(s) && ValidRun(s, steps)
    ensures Inv(Final(s, steps))
    decreases |steps|
  {
    if steps != [] {
      StepKeeps(s, steps[0]);
      RunKeeps(Apply(s, steps[0]).0, steps[1..]);
    }
  }

  /** In every run a live channel's id is its table index, so ids are distinct. */
  lemma IdsAreIndices(steps: seq<Step>, i: nat)
    requires ValidRun(EMPTY, steps)
    requires i < |Final(EMPTY, steps).t| && Final(EMPTY, steps).t[i].Live?
    ensures Final(EMPTY, steps).t[i].c.self == i
  {
    RunKeeps(EMPTY, steps);
    var s := Final(EMPTY, steps);
    assert SlotInv(s.t, s.serial, s.log, i);
  }

  /** In every run a message the server addresses to a proxied channel goes, with its payload, to the very
      client that last opened a channel under that id, which is still there, and carries the id the client used. */
  lemma UpstreamReachesOpener(steps: seq<Step>, i: nat, m: UpMsg)
    requires ValidRun(EMPTY, steps) && Attached(Final(EMPTY, steps).t, i)
    ensures var s := Final(EMPTY, steps);
      && Latest(s.log, i).Some?
      && Apply(s, Up(i, m)).1 == ToClient(Latest(s.log, i).value.client, Latest(s.log, i).value.downId, m)
      && IsClient(s.t, Latest(s.log, i).value.client)
      && s.t[Latest(s.log, i).value.client].c.serial == Latest(s.log, i).value.serial
  {
    RunKeeps(EMPTY, steps);
    var s := Final(EMPTY, steps);
    assert SlotInv(s.t, s.serial, s.log, i);
  }

  /** An opening is forwarded with everything but the id unchanged, under an id no live channel has,
      and from then on that id leads back to the client and its own id. */
  lemma OpeningIsRecorded(s: State, from: nat, m: DownMsg)
    requires Inv(s) && (m.Open? || m.OpenConfirmation?) && Enabled(s, Down(from, m))
    ensures var (r, out) := Apply(s, Down(from, m));
      var i := FirstFree(s.t);
      && (i < |s.t| ==> s.t[i].Free?)
      && out == ToServer(if m.Open? then Open(m.ctype, i, m.rest) else OpenConfirmation(m.remote, i, m.rest))
      && Attached(r.t, i) && Latest(r.log, i) == Some(Opening(i, from, s.t[from].c.serial, m.id))
      && forall u :: Apply(r, Up(i, u)).1 == ToClient(from, m.id, u)
  {
  }

  // ---- Permissions ------------------------------------------------------

  /** The client of every permission that is not cleared is the object that asked for it, still there. */
  predicate PermitsLive(s: State) {
    forall k :: 0 <= k < |s.permits| && s.permits[k].Some? ==>
      IsClient(s.t, s.permits[k].value.client) && s.t[s.permits[k].value.client].c.serial == s.permits[k].value.serial
  }

  /** Every step leaves a client as it is, except its own release. */
  lemma ClientStays(s: State, step: Step, i: nat)
    requires Inv(s) && Enabled(s, step) && IsClient(s.t, i) && step != Release(i)
    ensures var t := Apply(s, step).0.t; IsClient(t, i) && t[i].c.serial == s.t[i].c.serial
  {
    assert SlotInv(s.t, s.serial, s.log, i);
    match step
    case Release(j) => assert !ProxyOf(s.t[i], j);
    case Down(_, Close(Some(r), _)) =>
      if FirstRemote(s.t, r) < |s.t| {
        assert SlotInv(s.t, s.serial, s.log, FirstRemote(s.t, r));
      }
    case _ =>
  }

  lemma PermitsStep(s: State, step: Step)
    requires Inv(s) && PermitsLive(s) && Enabled(s, step)
    ensures PermitsLive(Apply(s, step).0)
  {
    hide FreeChannel, CloseFromClient, CloseFromServer, NewChannel;
    var r := Apply(s, step).0;
    forall k | 0 <= k < |r.permits| && r.permits[k].Some?
      ensures IsClient(r.t, r.permits[k].value.client)
           && r.t[r.permits[k].value.client].c.serial == r.permits[k].value.serial
    {
      assert k < |s.permits| ==> r.permits[k] == s.permits[k];
      ClientStays(s, step, r.permits[k].value.client);
    }
  }

  lemma {:induction false} PermitsRun(s: State, steps: seq<Step>)
    requires Inv(s) && PermitsLive(s) && ValidRun(s, steps)
    ensures PermitsLive(Final(s, steps))
    decreases |steps|
  {
    if steps != [] {
      StepKeeps(s, steps[0]);
      PermitsStep(s, steps[0]);
      PermitsRun(Apply(s, steps[0]).0, steps[1..]);
    }
  }

  /** In every run a permission that is not cleared leads to the very client that asked for it, which is still there. */
  lemma PermitsLeadToClients(steps: seq<Step>, k: nat)
    requires ValidRun(EMPTY, steps) && k < |Final(EMPTY, steps).permits| && Final(EMPTY, steps).permits[k].Some?
    ensures var s := Final(EMPTY, steps);
      IsClient(s.t, s.permits[k].value.client) && s.t[s.permits[k].value.client].c.serial == s.permits[k].value.serial
  {
    PermitsRun(EMPTY, steps);
  }

  // ---- The CLOSE handshake ----------------------------------------------

  /** The channel object created as number `serial` still lives at index `i`, proxied. */
  predicate Alive(t: Table, i: nat, serial: nat) { Attached(t, i) && t[i].c.serial == serial }

  predicate DistinctRemotes(t: Table) {
    forall i, j :: 0 <= i < j < |t| && t[i].Live? && t[j].Live? && t[i].c.remote.Some? ==>
      t[i].c.remote != t[j].c.remote
  }

  predicate ClosesDown(step: Step, remote: nat) { step.Down? && step.down.Close? && step.down.closing == Some(remote) }

  predicate ClosesUp(step: Step, i: nat) { step.Up? && step.at == i && step.up.Closed? }

  predicate AnyDown(steps: seq<Step>, remote: nat) { exists k :: 0 <= k < |steps| && ClosesDown(steps[k], remote) }

  predicate AnyUp(steps: seq<Step>, i: nat) { exists k :: 0 <= k < |steps| && ClosesUp(steps[k], i) }

  /** While the channel lives, the server's ids are distinct, it is not confirmed under
      another id, and its client does not go away. */
  predicate Undisturbed(s: State, steps: seq<Step>, i: nat, serial: nat)
    requires ValidRun(s, steps)
    decreases |steps|
  {
    Alive(s.t, i, serial) && steps != [] ==>
      && DistinctRemotes(s.t)
      && steps[0] != Release(s.t[i].c.kind.client)
      && (steps[0].Up? && steps[0].at == i && steps[0].up.Confirmed? ==>
            steps[0].up.remote == s.t[i].c.remote || steps[0].up.remote == None)
      && Undisturbed(Apply(s, steps[0]).0, steps[1..], i, serial)
  }

  /** Where the handshake of a channel stands. */
  predicate Stands(t: Table, i: nat, serial: nat, remote: nat, sent: bool, rcvd: bool) {
    && Alive(t, i, serial) && t[i].c.remote == Some(remote)
    && t[i].c.closeSent == sent && t[i].c.closeRcvd == rcvd
  }

  /** A CLOSE from a client marks the channel with that server id, and no other. */
  lemma ClientClose(s: State, i: nat, remote: nat, r: nat)
    requires Inv(s) && Attached(s.t, i) && s.t[i].c.remote == Some(remote) && DistinctRemotes(s.t)
    requires FirstRemote(s.t, r) < |s.t|
    ensures var t := CloseFromClient(s.t, FirstRemote(s.t, r));
      if r != remote then |t| == |s.t| && t[i] == s.t[i]
      else t == CloseFromClient(s.t, i)
  {
    var j := FirstRemote(s.t, r);
    assert SlotInv(s.t, s.serial, s.log, j);
    if r == remote {
      assert HasRemote(s.t[i], r) && j == i;
    }
  }

  /** Distinctness is needed: of two channels under one server id only the earlier is marked. */
  lemma CloseGoesToFirst(s: State, i: nat, remote: nat)
    requires Inv(s) && Attached(s.t, i) && s.t[i].c.remote == Some(remote) && !s.t[i].c.closeSent
    ensures FirstRemote(s.t, remote) < |s.t|
    ensures var t := CloseFromClient(s.t, FirstRemote(s.t, remote));
      t[i] != s.t[i] <==> forall j :: 0 <= j < i ==> !HasRemote(s.t[j], remote)
  {
    assert HasRemote(s.t[i], remote);
    assert SlotInv(s.t, s.serial, s.log, FirstRemote(s.t, remote));
  }

  lemma ReleaseOther(s: State, i: nat, j: nat)
    requires Inv(s) && Attached(s.t, i) && Enabled(s, Release(j)) && j != s.t[i].c.kind.client
    ensures |FreeChannel(s.t, j)| == |s.t| && FreeChannel(s.t, j)[i] == s.t[i]
  {
    assert i != j && !ProxyOf(s.t[i], j);
  }

  /** A message from the server touches only the channel it is addressed to. */
  lemma ServerMessage(s: State, i: nat, j: nat, m: UpMsg)
    requires Inv(s) && Attached(s.t, i)
    ensures var t := Upstream(s, j, m).0.t;
      && |t| == |s.t|
      && (i != j ==> t[i] == s.t[i])
      && (i == j && m.Closed? ==> t[i] == if s.t[i].c.closeSent then Free else Live(s.t[i].c.(closeRcvd := true)))
      && (i == j && m.Data? ==> t[i] == s.t[i])
      && (i == j && m.Confirmed? ==>
            t[i] == if m.remote.Some? then Live(s.t[i].c.(remote := m.remote)) else s.t[i])
  {
  }

  /** One step moves the handshake by exactly the CLOSE it carries, and ends it when both have passed. */
  lemma HandshakeStep(s: State, step: Step, i: nat, remote: nat)
    requires Inv(s) && Enabled(s, step) && Attached(s.t, i) && s.t[i].c.remote == Some(remote)
    requires DistinctRemotes(s.t) && step != Release(s.t[i].c.kind.client)
    requires step.Up? && step.at == i && step.up.Confirmed? ==> step.up.remote == Some(remote) || step.up.remote == None
    requires !(s.t[i].c.closeSent && s.t[i].c.closeRcvd)
    ensures var c := s.t[i].c;
      var sent, rcvd := c.closeSent || ClosesDown(step, remote), c.closeRcvd || ClosesUp(step, i);
      var t := Apply(s, step).0.t;
      if sent && rcvd then i < |t| && t[i].Free? else Stands(t, i, c.serial, remote, sent, rcvd)
  {
    match step
    case Down(_, Close(Some(r), _)) =>
      assert r == remote ==> HasRemote(s.t[i], r);
      if FirstRemote(s.t, r) < |s.t| {
        ClientClose(s, i, remote, r);
      }
    case Release(j) => ReleaseOther(s, i, j);
    case Up(j, m) => ServerMessage(s, i, j, m);
    case _ =>
  }

  /** A freed object does not come back: later channels at its index have later numbers. */
  lemma {:induction false} StaysGone(s: State, steps: seq<Step>, i: nat, serial: nat)
    requires Inv(s) && ValidRun(s, steps) && !Alive(s.t, i, serial) && serial < s.serial
    ensures !Alive(Final(s, steps).t, i, serial)
    decreases |steps|
  {
    if steps != [] {
      StepKeeps(s, steps[0]);
      GoneStep(s, steps[0], i, serial);
      StaysGone(Apply(s, steps[0]).0, steps[1..], i, serial);
    }
  }

  lemma GoneStep(s: State, step: Step, i: nat, serial: nat)
    requires Inv(s) && Enabled(s, step) && !Alive(s.t, i, serial) && serial < s.serial
    ensures !Alive(Apply(s, step).0.t, i, serial) && serial < Apply(s, step).0.serial
  {
  }

  /** From the moment a proxied channel has its server id, and for every run that leaves it undisturbed,
      the channel is gone at the end if and only if CLOSE has passed both ways, in either order. */
  lemma {:induction false} FreedExactlyWhenClosedBothWays(s: State, steps: seq<Step>, i: nat, remote: nat)
    requires Inv(s) && ValidRun(s, steps)
    requires Attached(s.t, i) && s.t[i].c.remote == Some(remote) && !(s.t[i].c.closeSent && s.t[i].c.closeRcvd)
    requires Undisturbed(s, steps, i, s.t[i].c.serial)
    ensures Alive(Final(s, steps).t, i, s.t[i].c.serial) <==>
      !((s.t[i].c.closeSent || AnyDown(steps, remote)) && (s.t[i].c.closeRcvd || AnyUp(steps, i)))
    decreases |steps|
  {
    if steps != [] {
      var c, next := s.t[i].c, Apply(s, steps[0]).0;
      assert SlotInv(s.t, s.serial, s.log, i);
      HandshakeStep(s, steps[0], i, remote);
      StepKeeps(s, steps[0]);
      AnyStep(steps, i, remote);
      if next.t[i].Free? {
        StaysGone(next, steps[1..], i, c.serial);
      } else {
        FreedExactlyWhenClosedBothWays(next, steps[1..], i, remote);
      }
    }
  }

  lemma AnyStep(steps: seq<Step>, i: nat, remote: nat)
    requires steps != []
    ensures AnyDown(steps, remote) <==> ClosesDown(steps[0], remote) || AnyDown(steps[1..], remote)
    ensures AnyUp(steps, i) <==> ClosesUp(steps[0], i) || AnyUp(steps[1..], i)
  {
    assert forall k :: 0 <= k < |steps[1..]| ==> steps[1..][k] == steps[k + 1];
    assert forall k :: 0 < k < |steps| ==> steps[k] == steps[1..][k - 1];
  }

  // ---- Packets ----------------------------------------------------------

  const MSG_GLOBAL_REQUEST: byte := 80
  const MSG_CHANNEL_OPEN: byte := 90
  const MSG_CHANNEL_OPEN_CONFIRMATION: byte := 91
  const MSG_CHANNEL_CLOSE: byte := 97

  /** "tcpip-forward" */
  const TCPIP_FORWARD: Bytes := [116, 99, 112, 105, 112, 45, 102, 111, 114, 119, 97, 114, 100]

  function ParseOpen(b: Bytes): DownMsg {
    match GetCString(b)
    case None => Refused
    case Some((ctype, more)) =>
      match GetNumber(more, 4)
      case None => Refused
      case Some((id, rest)) => Open(ctype, id, rest)
  }

  function ParseConfirmation(b: Bytes): DownMsg {
    match GetNumber(b, 4)
    case None => Refused
    case Some((remote, more)) =>
      match GetNumber(more, 4)
      case None => Refused
      case Some((id, rest)) => OpenConfirmation(remote, id, rest)
  }

  function ParseForward(b: Bytes, payload: Bytes): DownMsg {
    match GetNumber(b, 1)
    case None => Refused
    case Some((_, more)) =>
      match GetCString(more)
      case None => Refused
      case Some((host, more)) =>
        match GetNumber(more, 4)
        case None => Refused
        case Some((port, _)) => if port > 65535 then Refused else Forward(host, port, payload)
  }

  function ParseGlobal(b: Bytes): DownMsg {
    match GetCString(b)
    case None => Refused
    case Some((request, more)) => if request != TCPIP_FORWARD then Refused else ParseForward(more, b)
  }

  /** A packet of a mux client: a padding length, the type, and what follows. */
  function ParseDown(packet: Bytes): DownMsg {
    if |packet| < 2 then Refused
    else
      var typ, b := packet[1], packet[2..];
      if typ == MSG_CHANNEL_OPEN then ParseOpen(b)
      else if typ == MSG_CHANNEL_OPEN_CONFIRMATION then ParseConfirmation(b)
      else if typ == MSG_GLOBAL_REQUEST then ParseGlobal(b)
      else if typ == MSG_CHANNEL_CLOSE then Close(if |b| < 4 then None else Some(FromBE(b[..4])), b)
      else Pass(typ, b)
  }

  /** What is sent to the server: the type and what follows. */
  function ComposeUp(m: DownMsg): Bytes
    requires !m.Refused?
  {
    match m
    case Open(ctype, id, rest) => [MSG_CHANNEL_OPEN] + (Str(ctype) + (BE(id, 4) + rest))
    case OpenConfirmation(remote, id, rest) => [MSG_CHANNEL_OPEN_CONFIRMATION] + (BE(remote, 4) + (BE(id, 4) + rest))
    case Forward(_, _, payload) => [MSG_GLOBAL_REQUEST] + payload
    case Close(_, payload) => [MSG_CHANNEL_CLOSE] + payload
    case Pass(typ, payload) => [typ] + payload
  }

  lemma OpeningTypes(packet: Bytes)
    ensures var m := ParseDown(packet);
      && (m.Open? ==> |packet| >= 2 && packet[1] == MSG_CHANNEL_OPEN && m == ParseOpen(packet[2..]))
      && (m.OpenConfirmation? ==>
            |packet| >= 2 && packet[1] == MSG_CHANNEL_OPEN_CONFIRMATION && m == ParseConfirmation(packet[2..]))
  {
    hide GetCString, GetNumber, FromBE;
  }

  /** What is no opening goes up byte for byte. */
  lemma PassedUnchanged(packet: Bytes)
    ensures var m := ParseDown(packet);
      !m.Refused? && !m.Open? && !m.OpenConfirmation? ==> ComposeUp(m) == packet[1..]
  {
    hide GetCString, GetNumber, FromBE;
    if |packet| >= 2 {
      assert packet[1..] == [packet[1]] + packet[2..];
    }
  }

  /** The confirmation of a channel goes up with its four id bytes replaced and no other. */
  lemma ConfirmationOnWire(packet: Bytes, i: nat)
    requires ParseDown(packet).OpenConfirmation?
    ensures var m := ParseDown(packet);
      |packet| >= 10 && m.id == FromBE(packet[6..10]) &&
      ComposeUp(OpenConfirmation(m.remote, i, m.rest)) == packet[1..6] + (BE(i, 4) + packet[10..])
  {
    hide BE, FromBE, ParseDown;
    OpeningTypes(packet);
    var b := packet[2..];
    WriteBack(b[..4]);
    assert b[..4] == packet[2..6] && b[4..][..4] == packet[6..10] && b[4..][4..] == packet[10..];
    assert packet[1..6] == [packet[1]] + packet[2..6];
    Reassociate([packet[1]], packet[2..6], BE(i, 4) + packet[10..]);
  }

  lemma Reassociate(a: Bytes, b: Bytes, c: Bytes)
    ensures a + (b + c) == a + b + c
  {
  }

  /** Where a string at the front of the bytes ends. */
  function StrEnd(b: Bytes): nat
    requires |b| >= 4
  {
    4 + FromBE(b[..4])
  }

  lemma CStringParts(b: Bytes)
    requires GetCString(b).Some?
    ensures |b| >= 4 && StrEnd(b) <= |b| && GetCString(b).value.1 == b[StrEnd(b)..]
    ensures var s := GetCString(b).value.0;
      if StrEnd(b) > 4 && b[StrEnd(b) - 1] == 0 then |Str(s)| == StrEnd(b) - 1 else Str(s) == b[..StrEnd(b)]
  {
    hide BE, FromBE;
    var n := FromBE(b[..4]);
    WriteBack(b[..4]);
    assert b[4..][..n] == b[4..4 + n] && b[4..][n..] == b[4 + n..];
    assert b[..4 + n] == b[..4] + b[4..4 + n];
  }

  /** The opening of a channel goes up with its four id bytes replaced and no other, if and only if the channel type
      does not end in a zero byte, which is dropped. */
  lemma OpenOnWire(packet: Bytes, i: nat)
    requires ParseDown(packet).Open?
    ensures var m := ParseDown(packet);
      && |packet| >= 6
      && var k := 2 + StrEnd(packet[2..]);
         && k + 4 <= |packet| && m.id == FromBE(packet[k..k + 4]) && m.rest == packet[k + 4..]
         && (ComposeUp(Open(m.ctype, i, m.rest)) == packet[1..k] + (BE(i, 4) + packet[k + 4..]) <==>
               k == 6 || packet[k - 1] != 0)
  {
    hide BE, FromBE, GetCString, Str, ParseDown, StrEnd;
    OpeningTypes(packet);
    var m, b := ParseDown(packet), packet[2..];
    CStringParts(b);
    var e := StrEnd(b);
    EndAfterLength(b);
    assert b[e..][..4] == packet[2 + e..6 + e] && b[e..][4..] == packet[6 + e..];
    assert packet[1..2 + e] == [packet[1]] + b[..e];
    var tail := BE(i, 4) + m.rest;
    Reassociate([packet[1]], b[..e], tail);
    if e > 4 && b[e - 1] == 0 {
      assert |ComposeUp(Open(m.ctype, i, m.rest))| < |packet[1..2 + e] + tail|;
    }
  }

  /** The failing input: an opening of the type that is one zero byte goes up one byte shorter. */
  lemma TrailingZeroDropped()
    ensures var packet: Bytes := [0, 90, 0, 0, 0, 1, 0, 0, 0, 0, 7];
      ParseDown(packet) == Open([], 7, []) && |ComposeUp(Open([], 7, []))| < |packet[1..]|
  {
    var b: Bytes := [0, 0, 0, 1, 0, 0, 0, 0, 7];
    assert [0, 90, 0, 0, 0, 1, 0, 0, 0, 0, 7][2..] == b;
    SmallNumber(1, b);
    assert b[4..][..1] == [0] && b[4..][1..] == [0, 0, 0, 7];
    SmallNumber(7, [0, 0, 0, 7]);
    assert GetCString(b) == Some(([], [0, 0, 0, 7]));
  }

  lemma SmallNumber(n: byte, b: Bytes)
    requires |b| >= 4 && b[..4] == [0, 0, 0, n]
    ensures GetNumber(b, 4) == Some((n as nat, b[4..]))
  {
    assert [0, 0, 0, n][..3] == [0, 0, 0] && [0, 0, 0][..2] == [0, 0] && [0, 0][..1] == [0];
    assert FromBE([0]) == 0 && FromBE([0, 0]) == 0 && FromBE([0, 0, 0]) == 0;
  }

  lemma EndAfterLength(b: Bytes)
    requires |b| >= 4
    ensures StrEnd(b) >= 4 && (StrEnd(b) > 4 && StrEnd(b) <= |b| ==> b[StrEnd(b) - 1] == b[4..][StrEnd(b) - 5])
  {
  }

  // ---- The table object -------------------------------------------------

  /** struct ssh_channels, with the handlers of the proxy. */
  class Channels {
    var channels: Table
    var serial: nat
    var permits: seq<Option<Permit>>
    ghost var log: seq<Opening>

    ghost function Model(): State
      reads this
    {
      State(channels, serial, log, permits)
    }

    constructor ()
      ensures Model() == EMPTY
    {
      channels, serial, log, permits := [], 0, [], [];
    }

    /** channel_new; `ok` is false where the source ends the process. */
    method New(kind: Kind, remote: Option<nat>) returns (ok: bool, found: nat)
      modifies this
      ensures ok == old(RoomFor(channels))
      ensures ok ==> found == FirstFree(old(channels)) && Model() == AddChannel(old(Model()), kind, remote)
      ensures !ok ==> Model() == old(Model())
    {
      ghost var owner := if kind.Proxy? then SerialAt(channels, kind.client) else 0;
      found := 0;
      while found < |channels| && channels[found].Live?
        invariant found <= |channels| && forall j :: 0 <= j < found ==> channels[j].Live?
      {
        found := found + 1;
      }
      assert FirstFree(channels) == found;
      ok := true;
      if found >= |channels| {
        if |channels| > CHANNELS_MAX_CHANNELS {
          ok := false;
          return;
        }
        channels := channels + seq(CHANNELS_GROWTH, _ => Free);
      }
      channels := channels[found := Live(Chan(found, serial, kind, remote, false, false))];
      serial := serial + 1;
      log := if kind.Proxy? then log + [Opening(found, kind.client, owner, kind.downId)] else log;
    }

    /** channel_by_remote_id: the index of the channel, or the size of the table. */
    method ByRemoteId(remote: nat) returns (i: nat)
      ensures i == FirstRemote(channels, remote)
    {
      i := 0;
      while i < |channels| && !(channels[i].Live? && channels[i].c.remote == Some(remote))
        invariant i <= |channels| && forall j :: 0 <= j < i ==> !HasRemote(channels[j], remote)
      {
        i := i + 1;
      }
    }

    /** channel_free. */
    method Remove(i: nat)
      requires i < |channels| && channels[i].Live? && channels[i].c.self == i
      modifies this`channels, this`permits
      ensures Model() == Released(old(Model()), i)
    {
      var c := channels[i].c;
      var k := 0;
      while k < |channels|
        invariant k <= |channels| == |old(channels)| && permits == old(permits)
        invariant forall j :: 0 <= j < k ==>
          channels[j] == if c.kind.Client? then Detached(old(channels)[j], i) else old(channels)[j]
        invariant forall j :: k <= j < |channels| ==> channels[j] == old(channels)[j]
      {
        if channels[k].Live? && c.kind.Client? && channels[k].c.kind.Proxy? && channels[k].c.kind.client == i {
          channels := channels[k := Live(channels[k].c.(kind := Other))];
        }
        k := k + 1;
      }
      if c.kind.Client? {
        RemoveForwardings(i);
      }
      channels := channels[c.self := Free];
      assert channels == FreeChannel(old(channels), i);
    }

    /** mux_remove_remote_forwardings, without the messages to the server. */
    method RemoveForwardings(client: nat)
      modifies this`permits
      ensures permits == Cleared(old(permits), client)
    {
      var k := 0;
      while k < |permits|
        invariant k <= |permits| == |old(permits)|
        invariant forall j :: 0 <= j < k ==> permits[j] == Cleared(old(permits), client)[j]
        invariant forall j :: k <= j < |permits| ==> permits[j] == old(permits)[j]
      {
        if permits[k].Some? && permits[k].value.client == client {
          permits := permits[k := None];
        }
        k := k + 1;
      }
    }

    /** channel_proxy_downstream: `ok` is false where the source ends the process; a packet that does not parse or is
        not supported gives an error and changes nothing. */
    method ProxyDownstream(from: nat, packet: Bytes) returns (ok: bool, ret: int, out: Out)
      requires Inv(Model()) && IsClient(channels, from)
      modifies this
      ensures var m := ParseDown(packet);
        && ok == Enabled(old(Model()), Down(from, m))
        && (ok ==> (Model(), out) == Apply(old(Model()), Down(from, m)) && Inv(Model()))
        && ret == if m.Refused? then -1 else 0
    {
      hide ParseDown;
      var m := ParseDown(packet);
      StepIfRoom(Model(), from, m);
      ok, ret, out := true, 0, ToServer(m);
      match m {
        case Open(ctype, id, rest) =>
          var found;
          ok, found := New(Proxy(from, id), None);
          out := ToServer(Open(ctype, found, rest));
        case OpenConfirmation(remote, id, rest) =>
          var found;
          ok, found := New(Proxy(from, id), Some(remote));
          out := ToServer(OpenConfirmation(remote, found, rest));
        case Forward(host, port, _) =>
          permits := permits + [Some(Permit(host, port, from, channels[from].c.serial))];
        case Close(Some(remote), _) =>
          var i := ByRemoteId(remote);
          if i < |channels| {
            assert SlotInv(channels, serial, log, i);
            if channels[i].c.closeRcvd {
              Remove(i);
            } else {
              channels := channels[i := Live(channels[i].c.(closeSent := true))];
            }
          }
        case Refused => ret, out := -1, Nothing;
        case _ =>
      }
    }

    /** channel_proxy_upstream, for a message the server addressed to channel `i`. */
    method ProxyUpstream(i: nat, m: UpMsg) returns (out: Out)
      requires Inv(Model())
      modifies this
      ensures (Model(), out) == Apply(old(Model()), Up(i, m)) && Inv(Model())
    {
      StepKeeps(Model(), Up(i, m));
      if i >= |channels| || channels[i].Free? || !channels[i].c.kind.Proxy? {
        return Nothing;
      }
      var c := channels[i].c;
      assert SlotInv(channels, serial, log, i);
      out := ToClient(c.kind.client, c.kind.downId, m);
      match m {
        case Confirmed(Some(remote), _) => channels := channels[i := Live(c.(remote := Some(remote)))];
        case Closed(_) =>
          if c.closeSent {
            Remove(i);
          } else {
            channels := channels[i := Live(c.(closeRcvd := true))];
          }
        case _ =>
      }
    }
  }

  lemma StepIfRoom(s: State, from: nat, m: DownMsg)
    requires Inv(s)
    ensures Enabled(s, Down(from, m)) ==> Inv(Apply(s, Down(from, m)).0)
  {
    if Enabled(s, Down(from, m)) {
      StepKeeps(s, Down(from, m));
    }
  }
}
