/**
 Flow control of an open SSH channel, as channels.c implements the window
 protocol of section 5.2 of RFC 4254. Two endpoints run the same handlers over
 two first-in first-out links. Counters are unsigned 32-bit, as in the source;
 that they never wrap in a run is one of the results.
 */
module ChannelWindow {
  const TWO_32: nat := 0x1_0000_0000
  const CHANNEL_MAX_READ: nat := 32 * 1024
  const CHAN_RBUF: nat := 32 * 1024
  const CHAN_INPUT_MAX: nat := 16 * 1024 * 1024

  type Bytes = seq<bv8>

  datatype Msg = Data(d: Bytes) | ExtData(d: Bytes) | Adjust(n: nat)

  datatype ExtUsage = ExtIgnore | ExtRead | ExtWrite

  /** The window counters and buffers of a channel of type OPEN. */
  datatype Chan = Chan(
    input: Bytes, output: Bytes, extended: Bytes, usage: ExtUsage,
    efdOpen: bool, outputOpen: bool, closing: bool, dynamic: bool,
    remoteWindow: nat, remoteMaxpacket: nat,
    localWindow: nat, localWindowMax: nat, localConsumed: nat, localMaxpacket: nat, localExceeded: nat)

  /** What has passed an endpoint so far, and whether it has torn the connection down. */
  datatype Trace = Trace(
    read: Bytes, extRead: Bytes, received: Bytes, extReceived: Bytes, written: Bytes, extWritten: Bytes,
    dropped: nat, dead: bool)

  datatype End = End(c: Chan, t: Trace)

  function Min(a: nat, b: nat): nat { if a <= b then a else b }

  /** Unsigned 32-bit arithmetic. */
  function U32(x: int): (r: nat)
    ensures r < TWO_32
  {
    x % TWO_32
  }

  // ---- Handlers ---------------------------------------------------------

  /** How much channel_handle_rfd may read: what the peer's window and the input buffer still allow. */
  function ReadLimit(c: Chan): nat {
    if |c.input| >= c.remoteWindow || |c.input| >= CHAN_INPUT_MAX then 0
    else Min(CHANNEL_MAX_READ, Min(c.remoteWindow - |c.input|, CHAN_INPUT_MAX - |c.input|))
  }

  /** A read stays within the peer's window and the buffer, and one byte more would not, unless the read itself
      is as large as reads get. */
  lemma ReadFillsWindow(c: Chan)
    ensures ReadLimit(c) <= CHANNEL_MAX_READ
    ensures ReadLimit(c) > 0 ==> |c.input| + ReadLimit(c) <= Min(c.remoteWindow, CHAN_INPUT_MAX)
    ensures ReadLimit(c) < CHANNEL_MAX_READ ==> |c.input| + ReadLimit(c) + 1 > Min(c.remoteWindow, CHAN_INPUT_MAX)
  {
  }

  /** The size of the next packet taken from a buffer. */
  function SendLength(c: Chan, buffered: nat): nat {
    Min(buffered, Min(c.remoteWindow, c.remoteMaxpacket))
  }

  function SendData(c: Chan): Chan {
    var n := SendLength(c, |c.input|);
    c.(input := c.input[n..], remoteWindow := c.remoteWindow - n)
  }

  function SendExtended(c: Chan): Chan {
    var n := SendLength(c, |c.extended|);
    c.(extended := c.extended[n..], remoteWindow := c.remoteWindow - n)
  }

  /** channel_input_data for `n` bytes, without the buffer: the new counters, and whether the peer is cut off. */
  function InputData(e: End, d: Bytes): End {
    var c, n := e.c, |d|;
    if !c.outputOpen then
      e.(c := c.(localWindow := if n > c.localWindow then 0 else c.localWindow - n, localConsumed := U32(c.localConsumed + n)),
         t := e.t.(received := e.t.received + d))
    else if n > c.localMaxpacket then e.(t := e.t.(received := e.t.received + d))
    else if n > c.localWindow then
      var exceeded := U32(c.localExceeded + (n - c.localWindow));
      End(c.(localWindow := 0, localExceeded := exceeded, output := c.output + d),
          e.t.(received := e.t.received + d, dead := exceeded > c.localWindowMax / 10))
    else
      End(c.(localWindow := c.localWindow - n, localExceeded := 0, output := c.output + d),
          e.t.(received := e.t.received + d))
  }

  /** channel_input_extended_data: data without an open sink is dropped and its window is not given back. */
  function InputExtended(e: End, d: Bytes): End {
    var c, n := e.c, |d|;
    var t := e.t.(extReceived := e.t.extReceived + d);
    if !c.efdOpen || c.usage != ExtWrite then End(c, t.(dropped := t.dropped + n))
    else if n > c.localWindow then End(c, t.(dropped := t.dropped + n))
    else End(c.(localWindow := c.localWindow - n, extended := c.extended + d), t)
  }

  /** channel_input_window_adjust: an adjust that overflows 32 bits is fatal. */
  function InputAdjust(e: End, n: nat): End {
    if e.c.remoteWindow + n >= TWO_32 then e.(t := e.t.(dead := true))
    else e.(c := e.c.(remoteWindow := e.c.remoteWindow + n))
  }

  function Input(e: End, m: Msg): End {
    match m
    case Data(d) => InputData(e, d)
    case ExtData(d) => InputExtended(e, d)
    case Adjust(n) => InputAdjust(e, n)
  }

  /** When channel_check_window sends an adjust. */
  predicate WantsAdjust(c: Chan) {
    && !c.closing
    && (U32(c.localWindowMax - c.localWindow) > U32(c.localMaxpacket * 3) || c.localWindow < c.localWindowMax / 2)
    && c.localConsumed > 0
  }

  /** Window growth: the maximum follows a larger TCP receive buffer. */
  function Growth(c: Chan, tcpwinsz: nat): nat {
    if c.dynamic && tcpwinsz > c.localWindowMax then tcpwinsz - c.localWindowMax else 0
  }

  /** The window the adjust of channel_check_window hands back. */
  function Grant(c: Chan, tcpwinsz: nat): nat { U32(c.localConsumed + Growth(c, tcpwinsz)) }

  function CheckWindow(c: Chan, tcpwinsz: nat): Chan {
    if !WantsAdjust(c) then c
    else
      c.(localWindowMax := U32(c.localWindowMax + Growth(c, tcpwinsz)),
         localWindow := U32(c.localWindow + c.localConsumed + Growth(c, tcpwinsz)),
         localConsumed := 0)
  }

  // ---- The two-ended system ---------------------------------------------

  datatype Action =
    | Read(bytes: Bytes)
    | ReadExtended(bytes: Bytes)
    | PollData
    | PollExtended
    | Receive
    | Drain(n: nat)
    | DrainExtended(n: nat)
    | Check(tcpwinsz: nat)
    | CloseOutput
    | CloseEfd
    | StartClosing

  /** One endpoint with the link it sends on and the link it receives from. */
  datatype View = View(e: End, out: seq<Msg>, inq: seq<Msg>)

  predicate Enabled(v: View, a: Action) {
    var c := v.e.c;
    !v.e.t.dead &&
    match a
    case Read(bytes) => 0 < |bytes| <= ReadLimit(c)
    case ReadExtended(bytes) => c.usage == ExtRead && 0 < |bytes| <= CHAN_RBUF
    case PollData => !c.closing && SendLength(c, |c.input|) > 0
    case PollExtended => !c.closing && c.usage == ExtRead && SendLength(c, |c.extended|) > 0
    case Receive => v.inq != []
    case Drain(n) => 0 < n <= |c.output|
    case DrainExtended(n) => c.usage == ExtWrite && c.efdOpen && 0 < n <= |c.extended|
    case Check(tcpwinsz) => tcpwinsz < TWO_32
    case _ => true
  }

  function Apply(v: View, a: Action): View
    requires Enabled(v, a)
  {
    var End(c, t) := v.e;
    match a
    case Read(bytes) => v.(e := End(c.(input := c.input + bytes), t.(read := t.read + bytes)))
    case ReadExtended(bytes) => v.(e := End(c.(extended := c.extended + bytes), t.(extRead := t.extRead + bytes)))
    case PollData => v.(e := End(SendData(c), t), out := v.out + [Data(c.input[..SendLength(c, |c.input|)])])
    case PollExtended =>
      v.(e := End(SendExtended(c), t), out := v.out + [ExtData(c.extended[..SendLength(c, |c.extended|)])])
    case Receive => v.(e := Input(v.e, v.inq[0]), inq := v.inq[1..])
    case Drain(n) =>
      v.(e := End(c.(output := c.output[n..], localConsumed := U32(c.localConsumed + n)), t.(written := t.written + c.output[..n])))
    case DrainExtended(n) =>
      v.(e := End(c.(extended := c.extended[n..], localConsumed := U32(c.localConsumed + n)),
                  t.(extWritten := t.extWritten + c.extended[..n])))
    case Check(tcpwinsz) =>
      v.(e := End(CheckWindow(c, tcpwinsz), t),
         out := if WantsAdjust(c) then v.out + [Adjust(Grant(c, tcpwinsz))] else v.out)
    case CloseOutput => v.(e := End(c.(outputOpen := false), t))
    case CloseEfd => v.(e := End(c.(efdOpen := false), t))
    case StartClosing => v.(e := End(c.(closing := true), t))
  }

  datatype Net = Net(left: End, right: End, toRight: seq<Msg>, toLeft: seq<Msg>)

  datatype Step = Step(onLeft: bool, action: Action)

  function Side(n: Net, onLeft: bool): View {
    if onLeft then View(n.left, n.toRight, n.toLeft) else View(n.right, n.toLeft, n.toRight)
  }

  predicate StepEnabled(n: Net, s: Step) { Enabled(Side(n, s.onLeft), s.action) }

  function Next(n: Net, s: Step): Net
    requires StepEnabled(n, s)
  {
    var v := Apply(Side(n, s.onLeft), s.action);
    if s.onLeft then Net(v.e, n.right, v.out, v.inq) else Net(n.left, v.e, v.inq, v.out)
  }

  // ---- Invariants -------------------------------------------------------

  function DataOf(q: seq<Msg>): Bytes {
    if q == [] then [] else if q[0].Data? then q[0].d + DataOf(q[1..]) else DataOf(q[1..])
  }

  function ExtOf(q: seq<Msg>): Bytes {
    if q == [] then [] else if q[0].ExtData? then q[0].d + ExtOf(q[1..]) else ExtOf(q[1..])
  }

  function Adjusts(q: seq<Msg>): nat {
    if q == [] then 0 else (if q[0].Adjust? then q[0].n else 0) + Adjusts(q[1..])
  }

  predicate Packets(q: seq<Msg>, maxpacket: nat) {
    forall i :: 0 <= i < |q| && !q[i].Adjust? ==> 0 < |q[i].d| <= maxpacket
  }

  /** Unwritten bytes that came over the channel. */
  function Buffered(c: Chan): nat {
    |c.output| + (if c.usage == ExtWrite then |c.extended| else 0)
  }

  /** Every byte of the maximum window is granted, buffered, or waiting to be granted again. */
  predicate Conserved(c: Chan) {
    c.localWindow + Buffered(c) + c.localConsumed == c.localWindowMax < TWO_32
  }

  /** What the sender may still send, what is on its way, and what was dropped make up the receiver's window. */
  predicate Credit(s: End, r: End, fwd: seq<Msg>, back: seq<Msg>) {
    s.c.remoteWindow + |DataOf(fwd)| + |ExtOf(fwd)| + Adjusts(back) + r.t.dropped == r.c.localWindow
  }

  predicate Stream(s: End, r: End, fwd: seq<Msg>) {
    && s.t.read == r.t.received + (DataOf(fwd) + s.c.input)
    && r.t.written + r.c.output <= r.t.received
    && (r.c.outputOpen ==> r.t.written + r.c.output == r.t.received)
  }

  predicate ExtStream(s: End, r: End, fwd: seq<Msg>) {
    && (s.c.usage == ExtRead ==> r.c.usage == ExtWrite && s.t.extRead == r.t.extReceived + (ExtOf(fwd) + s.c.extended))
    && (s.c.usage != ExtRead ==> ExtOf(fwd) == [])
    && (r.c.usage == ExtWrite ==>
          && r.t.extWritten + r.c.extended <= r.t.extReceived
          && (r.c.efdOpen ==> r.t.extWritten + r.c.extended == r.t.extReceived))
    && (r.c.usage != ExtWrite || r.c.efdOpen ==> r.t.dropped == 0)
  }

  predicate Directed(s: End, r: End, fwd: seq<Msg>, back: seq<Msg>) {
    && Conserved(r.c)
    && Credit(s, r, fwd, back)
    && s.c.remoteMaxpacket == r.c.localMaxpacket && Packets(fwd, r.c.localMaxpacket)
    && Stream(s, r, fwd) && ExtStream(s, r, fwd)
  }

  /** Both directions between the endpoint `v` and its peer `p`. */
  predicate Paired(v: View, p: End) {
    Directed(v.e, p, v.out, v.inq) && Directed(p, v.e, v.inq, v.out) && !v.e.t.dead
  }

  predicate Inv(n: Net) {
    Paired(Side(n, true), n.right) && !n.right.t.dead
  }

  // ---- Links ------------------------------------------------------------

  lemma {:induction false} EnqueueData(q: seq<Msg>, m: Msg)
    ensures DataOf(q + [m]) == if m.Data? then DataOf(q) + m.d else DataOf(q)
  {
    if q == [] {
      assert q + [m] == [m] && [m][1..] == [];
    } else {
      assert (q + [m])[1..] == q[1..] + [m];
      EnqueueData(q[1..], m);
      if q[0].Data? && m.Data? {
        assert q[0].d + (DataOf(q[1..]) + m.d) == (q[0].d + DataOf(q[1..])) + m.d;
      }
    }
  }

  lemma {:induction false} EnqueueExt(q: seq<Msg>, m: Msg)
    ensures ExtOf(q + [m]) == if m.ExtData? then ExtOf(q) + m.d else ExtOf(q)
  {
    if q == [] {
      assert q + [m] == [m] && [m][1..] == [];
    } else {
      assert (q + [m])[1..] == q[1..] + [m];
      EnqueueExt(q[1..], m);
      if q[0].ExtData? && m.ExtData? {
        assert q[0].d + (ExtOf(q[1..]) + m.d) == (q[0].d + ExtOf(q[1..])) + m.d;
      }
    }
  }

  lemma {:induction false} EnqueueAdjust(q: seq<Msg>, m: Msg)
    ensures Adjusts(q + [m]) == Adjusts(q) + (if m.Adjust? then m.n else 0)
  {
    if q == [] {
      assert q + [m] == [m] && [m][1..] == [];
    } else {
      assert (q + [m])[1..] == q[1..] + [m];
      EnqueueAdjust(q[1..], m);
    }
  }

  lemma Enqueue(q: seq<Msg>, m: Msg)
    ensures DataOf(q + [m]) == if m.Data? then DataOf(q) + m.d else DataOf(q)
    ensures ExtOf(q + [m]) == if m.ExtData? then ExtOf(q) + m.d else ExtOf(q)
    ensures Adjusts(q + [m]) == Adjusts(q) + (if m.Adjust? then m.n else 0)
  {
    EnqueueData(q, m);
    EnqueueExt(q, m);
    EnqueueAdjust(q, m);
  }

  /** A step that keeps what a sender contributes keeps its direction. */
  predicate SameSender(s: End, k: End) {
    && s.c.remoteWindow == k.c.remoteWindow && s.c.remoteMaxpacket == k.c.remoteMaxpacket
    && s.c.usage == k.c.usage && s.c.input == k.c.input && s.t.read == k.t.read
    && (s.c.usage == ExtRead ==> s.c.extended == k.c.extended && s.t.extRead == k.t.extRead)
  }

  predicate SameReceiver(r: End, k: End) {
    && r.c.localWindow == k.c.localWindow && r.c.localWindowMax == k.c.localWindowMax
    && r.c.localConsumed == k.c.localConsumed && r.c.localMaxpacket == k.c.localMaxpacket
    && r.c.usage == k.c.usage && r.c.efdOpen == k.c.efdOpen && r.c.outputOpen == k.c.outputOpen
    && r.c.output == k.c.output && (r.c.usage == ExtWrite ==> r.c.extended == k.c.extended)
    && r.t.received == k.t.received && r.t.extReceived == k.t.extReceived
    && r.t.written == k.t.written && r.t.extWritten == k.t.extWritten && r.t.dropped == k.t.dropped
  }

  lemma SenderIdle(s: End, k: End, r: End, fwd: seq<Msg>, back: seq<Msg>, back': seq<Msg>)
    requires Directed(s, r, fwd, back) && SameSender(s, k) && Adjusts(back) == Adjusts(back')
    ensures Directed(k, r, fwd, back')
  {
  }

  lemma ReceiverIdle(s: End, r: End, k: End, fwd: seq<Msg>, back: seq<Msg>, back': seq<Msg>)
    requires Directed(s, r, fwd, back) && SameReceiver(r, k) && Adjusts(back) == Adjusts(back')
    ensures Directed(s, k, fwd, back')
  {
  }

  // ---- Every handler keeps the invariants -------------------------------

  lemma ReadKeeps(v: View, p: End, bytes: Bytes)
    requires Paired(v, p) && Enabled(v, Read(bytes))
    ensures Paired(Apply(v, Read(bytes)), p)
  {
    var w := Apply(v, Read(bytes)).e;
    assert w.t.read == p.t.received + (DataOf(v.out) + w.c.input);
    ReceiverIdle(p, v.e, w, v.inq, v.out, v.out);
  }

  lemma ReadExtendedKeeps(v: View, p: End, bytes: Bytes)
    requires Paired(v, p) && Enabled(v, ReadExtended(bytes))
    ensures Paired(Apply(v, ReadExtended(bytes)), p)
  {
    var w := Apply(v, ReadExtended(bytes)).e;
    assert w.t.extRead == p.t.extReceived + (ExtOf(v.out) + w.c.extended);
    ReceiverIdle(p, v.e, w, v.inq, v.out, v.out);
  }

  lemma DataSent(s: End, r: End, fwd: seq<Msg>, back: seq<Msg>)
    requires Directed(s, r, fwd, back)
    requires SendLength(s.c, |s.c.input|) > 0
    ensures Directed(End(SendData(s.c), s.t), r, fwd + [Data(s.c.input[..SendLength(s.c, |s.c.input|)])], back)
  {
    var n := SendLength(s.c, |s.c.input|);
    var m := Data(s.c.input[..n]);
    Enqueue(fwd, m);
    assert DataOf(fwd) + s.c.input == (DataOf(fwd) + m.d) + s.c.input[n..];
  }

  lemma ExtendedSent(s: End, r: End, fwd: seq<Msg>, back: seq<Msg>)
    requires Directed(s, r, fwd, back) && s.c.usage == ExtRead
    requires SendLength(s.c, |s.c.extended|) > 0
    ensures Directed(End(SendExtended(s.c), s.t), r,
                     fwd + [ExtData(s.c.extended[..SendLength(s.c, |s.c.extended|)])], back)
  {
    var n := SendLength(s.c, |s.c.extended|);
    var m := ExtData(s.c.extended[..n]);
    Enqueue(fwd, m);
    assert ExtOf(fwd) + s.c.extended == (ExtOf(fwd) + m.d) + s.c.extended[n..];
  }

  lemma PollDataKeeps(v: View, p: End)
    requires Paired(v, p) && Enabled(v, PollData)
    ensures Paired(Apply(v, PollData), p)
  {
    var w := Apply(v, PollData);
    DataSent(v.e, p, v.out, v.inq);
    EnqueueAdjust(v.out, Data(v.e.c.input[..SendLength(v.e.c, |v.e.c.input|)]));
    ReceiverIdle(p, v.e, w.e, v.inq, v.out, w.out);
  }

  lemma PollExtendedKeeps(v: View, p: End)
    requires Paired(v, p) && Enabled(v, PollExtended)
    ensures Paired(Apply(v, PollExtended), p)
  {
    var w := Apply(v, PollExtended);
    ExtendedSent(v.e, p, v.out, v.inq);
    EnqueueAdjust(v.out, ExtData(v.e.c.extended[..SendLength(v.e.c, |v.e.c.extended|)]));
    ReceiverIdle(p, v.e, w.e, v.inq, v.out, w.out);
  }

  lemma DrainKeeps(v: View, p: End, n: nat)
    requires Paired(v, p) && Enabled(v, Drain(n))
    ensures Paired(Apply(v, Drain(n)), p)
  {
    var t, out := v.e.t, v.e.c.output;
    assert (t.written + out[..n]) + out[n..] == t.written + out;
    SenderIdle(v.e, Apply(v, Drain(n)).e, p, v.out, v.inq, v.inq);
  }

  lemma DrainExtendedKeeps(v: View, p: End, n: nat)
    requires Paired(v, p) && Enabled(v, DrainExtended(n))
    ensures Paired(Apply(v, DrainExtended(n)), p)
  {
    var t, ext := v.e.t, v.e.c.extended;
    assert (t.extWritten + ext[..n]) + ext[n..] == t.extWritten + ext;
    SenderIdle(v.e, Apply(v, DrainExtended(n)).e, p, v.out, v.inq, v.inq);
  }

  /** The counters of channel_check_window do not wrap. */
  lemma GrantFits(c: Chan, tcpwinsz: nat)
    requires Conserved(c) && WantsAdjust(c) && tcpwinsz < TWO_32
    ensures Grant(c, tcpwinsz) == c.localConsumed + Growth(c, tcpwinsz)
    ensures CheckWindow(c, tcpwinsz).localWindow == c.localWindow + Grant(c, tcpwinsz)
    ensures CheckWindow(c, tcpwinsz).localWindowMax == c.localWindowMax + Growth(c, tcpwinsz) < TWO_32
  {
    assert c.localWindowMax + Growth(c, tcpwinsz) < TWO_32;
  }

  /** Sending an adjust moves the consumed bytes, and any growth, into the window on both sides. */
  lemma Adjusted(s: End, r: End, fwd: seq<Msg>, back: seq<Msg>, tcpwinsz: nat)
    requires Directed(s, r, fwd, back) && WantsAdjust(r.c) && tcpwinsz < TWO_32
    ensures Directed(s, End(CheckWindow(r.c, tcpwinsz), r.t), fwd,
                     back + [Adjust(Grant(r.c, tcpwinsz))])
  {
    GrantFits(r.c, tcpwinsz);
    EnqueueAdjust(back, Adjust(Grant(r.c, tcpwinsz)));
  }

  /** An adjust on a link changes nothing of the data it carries. */
  lemma AdjustBehind(s: End, r: End, fwd: seq<Msg>, back: seq<Msg>, n: nat)
    requires Directed(s, r, fwd, back)
    ensures Directed(s, r, fwd + [Adjust(n)], back)
  {
    Enqueue(fwd, Adjust(n));
  }

  lemma CheckKeeps(v: View, p: End, tcpwinsz: nat)
    requires Paired(v, p) && Enabled(v, Check(tcpwinsz))
    ensures Paired(Apply(v, Check(tcpwinsz)), p)
  {
    if WantsAdjust(v.e.c) {
      var w, n := Apply(v, Check(tcpwinsz)), Grant(v.e.c, tcpwinsz);
      Adjusted(p, v.e, v.inq, v.out, tcpwinsz);
      AdjustBehind(v.e, p, v.out, v.inq, n);
      SenderIdle(v.e, w.e, p, v.out + [Adjust(n)], v.inq, v.inq);
    }
  }

  /** A message in flight never finds its receiver without room: none of the error branches is taken. */
  lemma ReceiveFits(v: View, p: End)
    requires Paired(v, p) && v.inq != []
    ensures v.inq[0].Data? ==> |v.inq[0].d| <= v.e.c.localMaxpacket && |v.inq[0].d| <= v.e.c.localWindow
    ensures v.inq[0].ExtData? ==> v.e.c.usage == ExtWrite && |v.inq[0].d| <= v.e.c.localWindow
    ensures v.inq[0].Adjust? ==> v.e.c.remoteWindow + v.inq[0].n < TWO_32
  {
  }

  lemma DataReceived(s: End, r: End, fwd: seq<Msg>, back: seq<Msg>)
    requires Directed(s, r, fwd, back) && fwd != [] && fwd[0].Data?
    ensures Directed(s, InputData(r, fwd[0].d), fwd[1..], back) && InputData(r, fwd[0].d).t.dead == r.t.dead
  {
    var d, rest := fwd[0].d, fwd[1..];
    assert |d| <= r.c.localMaxpacket && |d| <= r.c.localWindow;
    assert s.t.read == (r.t.received + d) + (DataOf(rest) + s.c.input);
    assert r.t.written + (r.c.output + d) == (r.t.written + r.c.output) + d;
  }

  lemma ExtendedReceived(s: End, r: End, fwd: seq<Msg>, back: seq<Msg>)
    requires Directed(s, r, fwd, back) && fwd != [] && fwd[0].ExtData?
    ensures Directed(s, InputExtended(r, fwd[0].d), fwd[1..], back)
  {
    var d, rest := fwd[0].d, fwd[1..];
    assert |d| <= r.c.localWindow;
    assert s.t.extRead == (r.t.extReceived + d) + (ExtOf(rest) + s.c.extended);
    assert r.t.extWritten + (r.c.extended + d) == (r.t.extWritten + r.c.extended) + d;
  }

  lemma AdjustReceived(s: End, r: End, fwd: seq<Msg>, back: seq<Msg>)
    requires Directed(s, r, fwd, back) && back != [] && back[0].Adjust?
    ensures Directed(InputAdjust(s, back[0].n), r, fwd, back[1..]) && InputAdjust(s, back[0].n).t.dead == s.t.dead
  {
  }

  lemma AdjustAhead(s: End, r: End, fwd: seq<Msg>, back: seq<Msg>)
    requires Directed(s, r, fwd, back) && fwd != [] && fwd[0].Adjust?
    ensures Directed(s, r, fwd[1..], back)
  {
  }

  lemma ReceiveKeeps(v: View, p: End)
    requires Paired(v, p) && v.inq != []
    ensures Paired(Apply(v, Receive), p)
  {
    var w := Apply(v, Receive);
    match v.inq[0] {
      case Data(_) =>
        DataReceived(p, v.e, v.inq, v.out);
        SenderIdle(v.e, w.e, p, v.out, v.inq, w.inq);
      case ExtData(_) =>
        ExtendedReceived(p, v.e, v.inq, v.out);
        SenderIdle(v.e, w.e, p, v.out, v.inq, w.inq);
      case Adjust(_) =>
        AdjustReceived(v.e, p, v.out, v.inq);
        AdjustAhead(p, v.e, v.inq, v.out);
        ReceiverIdle(p, v.e, w.e, w.inq, v.out, v.out);
    }
  }

  lemma ActionKeeps(v: View, p: End, a: Action)
    requires Paired(v, p) && Enabled(v, a)
    ensures Paired(Apply(v, a), p)
  {
    match a
    case Read(bytes) => ReadKeeps(v, p, bytes);
    case ReadExtended(bytes) => ReadExtendedKeeps(v, p, bytes);
    case PollData => PollDataKeeps(v, p);
    case PollExtended => PollExtendedKeeps(v, p);
    case Receive => ReceiveKeeps(v, p);
    case Drain(n) => DrainKeeps(v, p, n);
    case DrainExtended(n) => DrainExtendedKeeps(v, p, n);
    case Check(tcpwinsz) => CheckKeeps(v, p, tcpwinsz);
    case _ =>
  }

  lemma StepKeeps(n: Net, s: Step)
    requires Inv(n) && StepEnabled(n, s)
    ensures Inv(Next(n, s))
  {
    ActionKeeps(Side(n, s.onLeft), Side(n, !s.onLeft).e, s.action);
  }

  // ---- Whole runs -------------------------------------------------------

  predicate ValidRun(n: Net, steps: seq<Step>)
    decreases |steps|
  {
    steps == [] || (StepEnabled(n, steps[0]) && ValidRun(Next(n, steps[0]), steps[1..]))
  }

  function Final(n: Net, steps: seq<Step>): Net
    requires ValidRun(n, steps)
    decreases |steps|
  {
    if steps == [] then n else Final(Next(n, steps[0]), steps[1..])
  }

  const NOTHING: Trace := Trace([], [], [], [], [], [], 0, false)

  /** A freshly confirmed direction: the sender holds the receiver's whole window. */
  predicate Confirmed(s: Chan, r: Chan) {
    && s.remoteWindow == r.localWindow == r.localWindowMax < TWO_32 && r.localConsumed == 0
    && s.remoteMaxpacket == r.localMaxpacket
    && s.input == [] && s.output == [] && s.extended == []
    && (s.usage == ExtRead ==> r.usage == ExtWrite)
  }

  predicate Opened(n: Net) {
    && Confirmed(n.left.c, n.right.c) && Confirmed(n.right.c, n.left.c)
    && n.left.t == n.right.t == NOTHING && n.toRight == n.toLeft == []
  }

  lemma OpenedInv(n: Net)
    requires Opened(n)
    ensures Inv(n)
  {
  }

  lemma {:induction false} RunKeeps(n: Net, steps: seq<Step>)
    requires Inv(n) && ValidRun(n, steps)
    ensures Inv(Final(n, steps))
    decreases |steps|
  {
    if steps != [] {
      StepKeeps(n, steps[0]);
      RunKeeps(Next(n, steps[0]), steps[1..]);
    }
  }

  /** In every run from an open channel no endpoint is ever sent more than its window or its
      largest packet, no counter overflows, and neither endpoint tears the connection down. */
  lemma WindowRespected(n: Net, steps: seq<Step>, onLeft: bool)
    requires Opened(n) && ValidRun(n, steps)
    ensures var v := Side(Final(n, steps), onLeft);
      && !v.e.t.dead
      && (v.inq != [] ==>
        match v.inq[0]
        case Data(d) => |d| <= v.e.c.localMaxpacket && |d| <= v.e.c.localWindow
        case ExtData(d) => v.e.c.usage == ExtWrite && |d| <= v.e.c.localWindow
        case Adjust(k) => v.e.c.remoteWindow + k < TWO_32)
  {
    OpenedInv(n);
    RunKeeps(n, steps);
    var m := Final(n, steps);
    if Side(m, onLeft).inq != [] {
      ReceiveFits(Side(m, onLeft), Side(m, !onLeft).e);
    }
  }

  /** In every run an endpoint's maximum window is what it has granted, what it buffers, and what it has still to grant
      again; and the window it has granted is exactly what its peer may still send, what is in flight, and what it
      dropped for want of a sink. */
  lemma WindowConserved(n: Net, steps: seq<Step>, onLeft: bool)
    requires Opened(n) && ValidRun(n, steps)
    ensures var m := Final(n, steps);
      var r, s := Side(m, onLeft), Side(m, !onLeft);
      && r.e.c.localWindow + Buffered(r.e.c) + r.e.c.localConsumed == r.e.c.localWindowMax < TWO_32
      && r.e.c.localWindow ==
         s.e.c.remoteWindow + |DataOf(r.inq)| + |ExtOf(r.inq)| + Adjusts(r.out) + r.e.t.dropped
  {
    OpenedInv(n);
    RunKeeps(n, steps);
  }

  /** In every run, as long as one side's output is open, what was read on the other is what has been written out
      here, what is buffered here, what is in flight, and what is still to be sent, in that order; and even after the
      output is closed, what was written out is a prefix of what was read. So too for the extended stream. */
  lemma WrittenIsPrefix(n: Net, steps: seq<Step>, onLeft: bool)
    requires Opened(n) && ValidRun(n, steps)
    ensures var m := Final(n, steps);
      var r, s := Side(m, onLeft), Side(m, !onLeft).e;
      && (r.e.c.outputOpen ==> s.t.read == r.e.t.written + r.e.c.output + (DataOf(r.inq) + s.c.input))
      && r.e.t.written <= s.t.read
      && (s.c.usage == ExtRead ==>
            && (r.e.c.efdOpen ==> s.t.extRead == r.e.t.extWritten + r.e.c.extended + (ExtOf(r.inq) + s.c.extended))
            && r.e.t.extWritten <= s.t.extRead)
  {
    OpenedInv(n);
    RunKeeps(n, steps);
    var m := Final(n, steps);
    var r, s := Side(m, onLeft), Side(m, !onLeft);
    assert r.e.t.received <= s.e.t.read;
    PrefixOfPrefix(r.e.t.written, r.e.c.output, r.e.t.received, s.e.t.read);
    if s.e.c.usage == ExtRead {
      assert r.e.t.extReceived <= s.e.t.extRead;
      PrefixOfPrefix(r.e.t.extWritten, r.e.c.extended, r.e.t.extReceived, s.e.t.extRead);
    }
  }

  lemma PrefixOfPrefix(a: Bytes, b: Bytes, c: Bytes, d: Bytes)
    requires a + b <= c <= d
    ensures a <= d
  {
    assert a == (a + b)[..|a|] == c[..|a|] == d[..|a|];
  }

  // ---- Progress ---------------------------------------------------------

  /** When the sender has used up its window and everything it sent has been written out, the next
      check sends an adjust unless too much of the window was lost with dropped data: exactly then. */
  lemma AdjustDue(v: View, p: End)
    requires Paired(v, p) && !v.e.c.closing
    requires p.c.remoteWindow == 0 && DataOf(v.inq) == ExtOf(v.inq) == [] && Adjusts(v.out) == 0
    requires Buffered(v.e.c) == 0
    ensures var max, lost := v.e.c.localWindowMax, v.e.t.dropped;
      WantsAdjust(v.e.c) <==> lost < max && (lost < max / 2 || max - lost > U32(v.e.c.localMaxpacket * 3))
  {
    assert v.e.c.localWindow == v.e.t.dropped;
  }

  /** A one-byte window with a useful packet size is never given back. */
  lemma OneByteWindowStalls(v: View, p: End)
    requires Paired(v, p) && v.e.c.localWindowMax == 1 && U32(v.e.c.localMaxpacket * 3) > 0
    ensures !WantsAdjust(v.e.c)
  {
  }

  /** A step that moves bytes or window along. */
  predicate Productive(v: View, a: Action) {
    && Enabled(v, a)
    && match a
       case Read(_) => false
       case ReadExtended(_) => false
       case Check(_) => WantsAdjust(v.e.c)
       case CloseOutput => false
       case CloseEfd => false
       case StartClosing => false
       case _ => true
  }

  function AdjustCount(q: seq<Msg>): nat {
    if q == [] then 0 else (if q[0].Adjust? then 1 else 0) + AdjustCount(q[1..])
  }

  lemma {:induction false} EnqueueCount(q: seq<Msg>, m: Msg)
    ensures AdjustCount(q + [m]) == AdjustCount(q) + if m.Adjust? then 1 else 0
  {
    if q == [] {
      assert q + [m] == [m] && [m][1..] == [];
    } else {
      assert (q + [m])[1..] == q[1..] + [m];
      EnqueueCount(q[1..], m);
    }
  }

  /** How far the bytes of an endpoint still have to go: those it has yet to send and those in its buffers. */
  function EndWork(c: Chan): nat {
    5 * (|c.input| + if c.usage == ExtRead then |c.extended| else 0) + 3 * Buffered(c) + 2 * c.localConsumed
  }

  function LinkWork(q: seq<Msg>): nat { 4 * |DataOf(q)| + 4 * |ExtOf(q)| + AdjustCount(q) }

  function ViewWork(v: View): nat { EndWork(v.e.c) + LinkWork(v.out) + LinkWork(v.inq) }

  function Work(n: Net): nat { EndWork(n.left.c) + EndWork(n.right.c) + LinkWork(n.toRight) + LinkWork(n.toLeft) }

  /** Taking the first message off a link takes its share of the work off it. */
  lemma DequeueWork(q: seq<Msg>)
    requires q != []
    ensures LinkWork(q) == LinkWork(q[1..]) + if q[0].Adjust? then 1 else 4 * |q[0].d|
  {
  }

  /** A message that fits puts less work on the endpoint than it took off the link. */
  lemma InputWork(e: End, m: Msg)
    requires Conserved(e.c)
    requires m.Data? ==> |m.d| <= e.c.localMaxpacket && |m.d| <= e.c.localWindow
    requires m.ExtData? ==> e.c.usage == ExtWrite && |m.d| <= e.c.localWindow
    ensures EndWork(Input(e, m).c) <= EndWork(e.c) + if m.Adjust? then 0 else 3 * |m.d|
  {
  }

  lemma ReceiveProgress(v: View, p: End)
    requires Paired(v, p) && v.inq != []
    ensures ViewWork(Apply(v, Receive)) < ViewWork(v)
  {
    ReceiveFits(v, p);
    assert Apply(v, Receive) == v.(e := Input(v.e, v.inq[0]), inq := v.inq[1..]);
    hide Input, EndWork, LinkWork;
    DequeueWork(v.inq);
    InputWork(v.e, v.inq[0]);
  }

  lemma PollProgress(v: View, p: End, a: Action)
    requires Paired(v, p) && Productive(v, a) && (a == PollData || a == PollExtended)
    ensures ViewWork(Apply(v, a)) < ViewWork(v)
  {
    var w := Apply(v, a);
    var m := w.out[|v.out|];
    assert w.out == v.out + [m];
    Enqueue(v.out, m);
    EnqueueCount(v.out, m);
  }

  lemma CheckProgress(v: View, p: End, tcpwinsz: nat)
    requires Paired(v, p) && Productive(v, Check(tcpwinsz))
    ensures ViewWork(Apply(v, Check(tcpwinsz))) < ViewWork(v)
  {
    var m := Adjust(Grant(v.e.c, tcpwinsz));
    Enqueue(v.out, m);
    EnqueueCount(v.out, m);
  }

  lemma ActionProgress(v: View, p: End, a: Action)
    requires Paired(v, p) && Productive(v, a)
    ensures ViewWork(Apply(v, a)) < ViewWork(v)
  {
    match a
    case PollData => PollProgress(v, p, a);
    case PollExtended => PollProgress(v, p, a);
    case Receive => ReceiveProgress(v, p);
    case Check(tcpwinsz) => CheckProgress(v, p, tcpwinsz);
    case Drain(k) => assert |v.e.c.output[k..]| == |v.e.c.output| - k;
    case DrainExtended(k) => assert |v.e.c.extended[k..]| == |v.e.c.extended| - k;
  }

  /** A run of productive steps only. */
  predicate ProductiveRun(n: Net, steps: seq<Step>)
    decreases |steps|
  {
    steps == [] ||
    (Productive(Side(n, steps[0].onLeft), steps[0].action) && ProductiveRun(Next(n, steps[0]), steps[1..]))
  }

  function ProductiveFinal(n: Net, steps: seq<Step>): Net
    requires ProductiveRun(n, steps)
    decreases |steps|
  {
    if steps == [] then n else ProductiveFinal(Next(n, steps[0]), steps[1..])
  }

  /** An endpoint that is still open on all counts, with a window of at least two bytes. */
  predicate Healthy(c: Chan) {
    && !c.closing && c.outputOpen && (c.usage == ExtWrite ==> c.efdOpen)
    && c.localWindowMax >= 2 && c.localMaxpacket > 0 && c.remoteMaxpacket > 0
  }

  ghost predicate Stuck(n: Net) {
    forall onLeft: bool, a: Action :: !Productive(Side(n, onLeft), a)
  }

  predicate Delivered(s: End, r: End) {
    r.t.written == s.t.read && (s.c.usage == ExtRead ==> r.t.extWritten == s.t.extRead)
  }

  lemma ProductiveStep(n: Net, s: Step)
    requires Inv(n) && Productive(Side(n, s.onLeft), s.action)
    ensures Inv(Next(n, s)) && Work(Next(n, s)) < Work(n)
  {
    StepKeeps(n, s);
    ActionProgress(Side(n, s.onLeft), Side(n, !s.onLeft).e, s.action);
  }

  lemma ReceiveStaysHealthy(v: View, p: End)
    requires Paired(v, p) && v.inq != [] && Healthy(v.e.c)
    ensures Healthy(Apply(v, Receive).e.c)
  {
    ReceiveFits(v, p);
  }

  lemma StaysHealthy(v: View, p: End, a: Action)
    requires Paired(v, p) && Productive(v, a) && Healthy(v.e.c)
    ensures Healthy(Apply(v, a).e.c)
  {
    match a
    case Receive => ReceiveStaysHealthy(v, p);
    case Check(tcpwinsz) => GrantFits(v.e.c, tcpwinsz);
    case _ =>
  }

  lemma StepStaysHealthy(n: Net, s: Step)
    requires Inv(n) && Productive(Side(n, s.onLeft), s.action) && Healthy(n.left.c) && Healthy(n.right.c)
    ensures Healthy(Next(n, s).left.c) && Healthy(Next(n, s).right.c)
  {
    StaysHealthy(Side(n, s.onLeft), Side(n, !s.onLeft).e, s.action);
  }

  /** Nothing is left in the links or in what came over them. */
  lemma StuckIsDrained(n: Net, onLeft: bool)
    requires Inv(n) && Stuck(n) && Healthy(Side(n, onLeft).e.c)
    ensures var v := Side(n, onLeft); v.inq == [] && Buffered(v.e.c) == 0 && !WantsAdjust(v.e.c)
  {
    var v := Side(n, onLeft);
    assert !Productive(Side(n, onLeft), Receive);
    assert !Productive(Side(n, onLeft), Drain(|v.e.c.output|));
    assert !Productive(Side(n, onLeft), DrainExtended(|v.e.c.extended|));
    assert !Productive(Side(n, onLeft), Check(0));
  }

  /** The sender then still has window, so it has nothing left to send. */
  lemma StuckIsSent(n: Net, onLeft: bool)
    requires Inv(n) && Stuck(n) && Healthy(n.left.c) && Healthy(n.right.c)
    ensures var c := Side(n, onLeft).e.c; c.input == [] && (c.usage == ExtRead ==> c.extended == [])
  {
    var v, w := Side(n, onLeft), Side(n, !onLeft);
    StuckIsDrained(n, onLeft);
    StuckIsDrained(n, !onLeft);
    if v.e.c.remoteWindow == 0 {
      AdjustDue(w, v.e);
      assert false;
    }
    assert !Productive(Side(n, onLeft), PollData);
    assert !Productive(Side(n, onLeft), PollExtended);
  }

  lemma StuckIsDelivered(n: Net, onLeft: bool)
    requires Inv(n) && Stuck(n) && Healthy(n.left.c) && Healthy(n.right.c)
    ensures Delivered(Side(n, !onLeft).e, Side(n, onLeft).e)
  {
    StuckIsDrained(n, onLeft);
    StuckIsSent(n, !onLeft);
    var r, s := Side(n, onLeft).e, Side(n, !onLeft).e;
    assert r.t.written + [] == r.t.written && r.t.received + ([] + []) == r.t.received;
    if s.c.usage == ExtRead {
      assert r.t.extWritten + [] == r.t.extWritten && r.t.extReceived + ([] + []) == r.t.extReceived;
    }
  }

  lemma {:induction false} ProductiveRunsDeliver(n: Net, steps: seq<Step>)
    requires Inv(n) && Healthy(n.left.c) && Healthy(n.right.c) && ProductiveRun(n, steps)
    ensures |steps| <= Work(n)
    ensures Stuck(ProductiveFinal(n, steps)) ==>
      && Delivered(ProductiveFinal(n, steps).left, ProductiveFinal(n, steps).right)
      && Delivered(ProductiveFinal(n, steps).right, ProductiveFinal(n, steps).left)
    decreases |steps|
  {
    if steps == [] {
      if Stuck(n) {
        StuckIsDelivered(n, true);
        StuckIsDelivered(n, false);
      }
    } else {
      ProductiveStep(n, steps[0]);
      StepStaysHealthy(n, steps[0]);
      ProductiveRunsDeliver(Next(n, steps[0]), steps[1..]);
    }
  }

  /** However the two endpoints are scheduled, after any run that leaves them open, moving data and window along
      comes to an end, within a bound known at the start; and when it can go no further every byte read
      on either side has been written out, in order, on the other. */
  lemma EverythingArrives(start: Net, run: seq<Step>, steps: seq<Step>)
    requires Opened(start) && ValidRun(start, run)
    requires Healthy(Final(start, run).left.c) && Healthy(Final(start, run).right.c)
    requires ProductiveRun(Final(start, run), steps)
    ensures |steps| <= Work(Final(start, run))
    ensures var end := ProductiveFinal(Final(start, run), steps);
      Stuck(end) ==> Delivered(end.left, end.right) && Delivered(end.right, end.left)
  {
    OpenedInv(start);
    RunKeeps(start, run);
    ProductiveRunsDeliver(Final(start, run), steps);
  }

  // ---- The channel object -----------------------------------------------

  type u32 = x: nat | x < TWO_32

  /** The window part of struct Channel, with the handlers that update it in place. */
  class Channel {
    var input: Bytes
    var output: Bytes
    var extended: Bytes
    var usage: ExtUsage
    var efdOpen: bool
    var outputOpen: bool
    var closing: bool
    var dynamic: bool
    var remoteWindow: u32
    var remoteMaxpacket: u32
    var localWindow: u32
    var localWindowMax: u32
    var localConsumed: u32
    var localMaxpacket: u32
    var localExceeded: u32

    function Model(): Chan
      reads this
    {
      Chan(input, output, extended, usage, efdOpen, outputOpen, closing, dynamic, remoteWindow, remoteMaxpacket,
           localWindow, localWindowMax, localConsumed, localMaxpacket, localExceeded)
    }

    /** channel_new and the open confirmation: a channel with its whole window granted. */
    constructor (window: u32, maxpacket: u32, usage: ExtUsage, dynamic: bool, rwindow: u32, rmaxpacket: u32)
      ensures Model() == Chan([], [], [], usage, true, true, false, dynamic, rwindow, rmaxpacket,
                              window, window, 0, maxpacket, 0)
    {
      input, output, extended := [], [], [];
      this.usage, this.dynamic := usage, dynamic;
      efdOpen, outputOpen, closing := true, true, false;
      remoteWindow, remoteMaxpacket := rwindow, rmaxpacket;
      localWindow, localWindowMax, localConsumed := window, window, 0;
      localMaxpacket, localExceeded := maxpacket, 0;
    }

    /** channel_handle_rfd, where the descriptor has `ready` to read. */
    method HandleRfd(ready: Bytes) returns (n: nat)
      modifies this
      ensures n == Min(|ready|, ReadLimit(old(Model())))
      ensures Model() == old(Model()).(input := old(input) + ready[..n])
    {
      n := 0;
      var have := |input|;
      var avail := if have < CHAN_INPUT_MAX then CHAN_INPUT_MAX - have else 0;
      if avail != 0 && have < remoteWindow {
        var maxlen := CHANNEL_MAX_READ;
        if maxlen > remoteWindow - have { maxlen := remoteWindow - have; }
        if maxlen > avail { maxlen := avail; }
        n := if |ready| < maxlen then |ready| else maxlen;
      }
      input := input + ready[..n];
    }

    /** channel_output_poll_input_open. */
    method OutputPollInput() returns (packet: Bytes)
      modifies this
      ensures |packet| == SendLength(old(Model()), |old(input)|) && packet + input == old(input)
      ensures Model() == SendData(old(Model()))
    {
      var len := |input|;
      if len > remoteWindow { len := remoteWindow; }
      if len > remoteMaxpacket { len := remoteMaxpacket; }
      packet := input[..len];
      input := input[len..];
      remoteWindow := remoteWindow - len;
    }

    /** channel_output_poll_extended_read. */
    method OutputPollExtended() returns (packet: Bytes)
      modifies this
      ensures |packet| == SendLength(old(Model()), |old(extended)|) && packet + extended == old(extended)
      ensures Model() == SendExtended(old(Model()))
    {
      var len := |extended|;
      if len > remoteWindow { len := remoteWindow; }
      if len > remoteMaxpacket { len := remoteMaxpacket; }
      packet := extended[..len];
      extended := extended[len..];
      remoteWindow := remoteWindow - len;
    }

    /** The end of channel_handle_wfd, where the descriptor took `n` bytes. */
    method HandleWfd(n: nat)
      requires n <= |output|
      modifies this
      ensures Model() == old(Model()).(output := old(output)[n..], localConsumed := U32(old(localConsumed) + n))
    {
      var olen := |output|;
      output := output[n..];
      localConsumed := U32(localConsumed + (olen - |output|));
    }

    /** channel_input_data: `ok` is false when the peer is disconnected for ignoring the window. */
    method ReceiveData(d: Bytes) returns (ok: bool)
      modifies this
      ensures Model() == InputData(End(old(Model()), NOTHING), d).c && ok == !InputData(End(old(Model()), NOTHING), d).t.dead
    {
      ok := true;
      if !outputOpen {
        localWindow, localConsumed := if |d| > localWindow then 0 else localWindow - |d|, U32(localConsumed + |d|);
        return;
      }
      if |d| > localMaxpacket {
        return;
      }
      if |d| > localWindow {
        localExceeded := U32(localExceeded + (|d| - localWindow));
        localWindow := 0;
        ok := localExceeded <= localWindowMax / 10;
      } else {
        localWindow, localExceeded := localWindow - |d|, 0;
      }
      output := output + d;
    }

    /** channel_input_extended_data. */
    method ReceiveExtended(d: Bytes)
      modifies this
      ensures Model() == InputExtended(End(old(Model()), NOTHING), d).c
    {
      if !efdOpen || usage != ExtWrite || |d| > localWindow {
        return;
      }
      extended := extended + d;
      localWindow := localWindow - |d|;
    }

    /** channel_input_window_adjust: the wrapped sum is below the old window exactly on overflow. */
    method ReceiveAdjust(n: u32) returns (ok: bool)
      modifies this
      ensures Model() == InputAdjust(End(old(Model()), NOTHING), n).c && ok == !InputAdjust(End(old(Model()), NOTHING), n).t.dead
    {
      var window := U32(remoteWindow + n);
      ok := window >= remoteWindow;
      if ok {
        remoteWindow := window;
      }
    }

    /** channel_check_window, for a TCP receive buffer of `tcpwinsz` bytes. */
    method CheckAndAdjust(tcpwinsz: u32) returns (sent: bool, adjust: nat)
      modifies this
      ensures sent == WantsAdjust(old(Model())) && (sent ==> adjust == Grant(old(Model()), tcpwinsz))
      ensures Model() == CheckWindow(old(Model()), tcpwinsz)
    {
      assert U32(localWindowMax) == localWindowMax;
      hide U32;
      sent, adjust := false, 0;
      if !closing
         && (U32(localWindowMax - localWindow) > U32(localMaxpacket * 3) || localWindow < localWindowMax / 2)
         && localConsumed > 0
      {
        var addition := 0;
        if dynamic && tcpwinsz > localWindowMax {
          addition := tcpwinsz - localWindowMax;
          localWindowMax := U32(localWindowMax + addition);
        }
        sent, adjust := true, U32(localConsumed + addition);
        localWindow := U32(localWindow + localConsumed + addition);
        localConsumed := 0;
      }
    }
  }
}
