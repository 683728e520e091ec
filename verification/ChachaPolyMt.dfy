/**
 The multi-threaded packet cipher of cipher-chachapoly-libcrypto-mt.c as a
 state machine. Two batch slots hold the keystreams of 64 packets each. The main
 thread uses one slot while a manager thread and its worker refill the other.
 A step is an action of one thread; runs interleave the steps in any order.
 */
module ChachaPolyMt {
  import opened Bits
  import opened StreamCipher
  import opened ChachaPoly

  const NUMSTREAMS: nat := 64
  const KEYSTREAMLEN: nat := 32896  // 32768 + 128, a multiple of the block length
  const TWO_32: nat := 0x1_0000_0000

  // ---- One packet -------------------------------------------------------

  /** The keystreams pregenerated for one packet. */
  datatype KeyStreams = KeyStreams(polyKey: seq<byte>, header: seq<byte>, main: seq<byte>)

  /** generate_keystream: the three keystreams are encryptions of zeros. */
  function Generate(x: Cipher, seqnr: nat): KeyStreams {
    KeyStreams(
      PolyKey(x, seqnr),
      EvpCipher(x, x.headerKey, seqnr, 0, Zeros(BLOCK_LEN)),
      EvpCipher(x, x.mainKey, seqnr, 1, Zeros(KEYSTREAMLEN)))
  }

  datatype Call =
    | CryptCall(src: seq<byte>, len: nat, aadlen: nat, encrypt: bool)
    | LengthCall(cp: seq<byte>)

  datatype Outcome =
    | Crypted(result: Result)
    | Measured(length: Length)

  predicate ValidCall(call: Call) {
    call.CryptCall? ==>
      && PacketFits(call.src, call.len, call.aadlen, call.encrypt)
      && call.len <= KEYSTREAMLEN && call.aadlen <= BLOCK_LEN
  }

  /** A length call on fewer than four bytes returns before touching any slot. */
  predicate TooShort(call: Call) {
    call.LengthCall? && |call.cp| < 4
  }

  predicate WellSized(ks: KeyStreams) {
    |ks.header| == BLOCK_LEN && |ks.main| == KEYSTREAMLEN
  }

  /** What the main thread computes from pregenerated keystreams. */
  function CryptWith(x: Cipher, ks: KeyStreams, call: Call): Outcome
    requires ValidCall(call) && WellSized(ks)
  {
    match call
    case CryptCall(src, len, aadlen, encrypt) =>
      Crypted(PacketWith(x, ks.polyKey, ks.header, ks.main, src, len, aadlen, encrypt))
    case LengthCall(cp) =>
      if |cp| < 4 then Measured(Length(MessageIncomplete, 0))
      else Measured(Length(Success, PeekU32(XorBytes(cp[..4], ks.header))))
  }

  /** What the serial cipher answers to the same call. */
  function Serial(x: Cipher, seqnr: nat, call: Call): Outcome
    requires ValidCall(call)
  {
    match call
    case CryptCall(src, len, aadlen, encrypt) => Crypted(SerialCrypt(x, seqnr, src, len, aadlen, encrypt))
    case LengthCall(cp) => Measured(SerialGetLength(x, seqnr, cp))
  }

  lemma PregeneratedStream(x: Cipher, key: seq<byte>, seqnr: nat, ctr: nat, n: nat, data: seq<byte>)
    requires |data| <= n
    ensures XorBytes(data, EvpCipher(x, key, seqnr, ctr, Zeros(n))) == EvpCipher(x, key, seqnr, ctr, data)
  {
    var z := EvpCipher(x, key, seqnr, ctr, Zeros(n));
    forall i | 0 <= i < |data| ensures z[i] == x.keystream(key, seqnr, ctr, i) {
      XorZero(x.keystream(key, seqnr, ctr, i));
    }
  }

  /** On the right keystreams the threaded cipher computes what the serial one does. */
  lemma GeneratedMatchesSerial(x: Cipher, seqnr: nat, call: Call)
    requires ValidCall(call)
    ensures CryptWith(x, Generate(x, seqnr), call) == Serial(x, seqnr, call)
  {
    match call
    case CryptCall(src, len, aadlen, encrypt) =>
      PregeneratedStream(x, x.headerKey, seqnr, 0, BLOCK_LEN, src[..aadlen]);
      PregeneratedStream(x, x.mainKey, seqnr, 1, KEYSTREAMLEN, src[aadlen..aadlen + len]);
    case LengthCall(cp) =>
      if |cp| >= 4 {
        PregeneratedStream(x, x.headerKey, seqnr, 0, BLOCK_LEN, cp[..4]);
      }
  }

  /**
   The three functions the pipeline depends on: the streams for a packet, the
   use of given streams for a call, and the serial answer to the call.
   */
  datatype Service = Service(
    generate: (nat, nat) -> KeyStreams,
    use: (KeyStreams, Call) -> Outcome,
    serial: (nat, Call) -> Outcome)

  /** The streams generated as number `i` of a batch give the serial answer for that packet. */
  predicate LawfulAt(o: Service, batch: nat, i: nat, call: Call) {
    && (batch * NUMSTREAMS + i < TWO_32 ==>
          o.use(o.generate(batch, i), call) == o.serial(batch * NUMSTREAMS + i, call))
    && (TooShort(call) ==> o.serial(i, call) == INCOMPLETE)
    && (ValidCall(call) ==> o.serial(i, call) != FAILURE)
  }

  ghost predicate Lawful(o: Service) {
    forall batch: nat, i: nat, call: Call :: LawfulAt(o, batch, i, call)
  }

  const FAILURE := Crypted(Result(InternalError, []))
  const INCOMPLETE := Measured(Length(MessageIncomplete, 0))

  /** Worker arithmetic on sequence numbers is modulo 2^32. */
  function GenerateFor(x: Cipher, batch: nat, i: nat): KeyStreams {
    Generate(x, (batch * NUMSTREAMS + i) % TWO_32)
  }

  function Use(x: Cipher, ks: KeyStreams, call: Call): Outcome {
    if ValidCall(call) && WellSized(ks) then CryptWith(x, ks, call) else FAILURE
  }

  function SerialAnswer(x: Cipher, seqnr: nat, call: Call): Outcome {
    if ValidCall(call) then Serial(x, seqnr, call) else FAILURE
  }

  function ServiceOf(x: Cipher): Service {
    Service((batch: nat, i: nat) => GenerateFor(x, batch, i),
            (ks: KeyStreams, call: Call) => Use(x, ks, call),
            (seqnr: nat, call: Call) => SerialAnswer(x, seqnr, call))
  }

  lemma GeneratedForMatchesSerial(x: Cipher, batch: nat, i: nat, call: Call)
    requires batch * NUMSTREAMS + i < TWO_32
    ensures Use(x, GenerateFor(x, batch, i), call) == SerialAnswer(x, batch * NUMSTREAMS + i, call)
  {
    var seqnr := batch * NUMSTREAMS + i;
    assert seqnr % TWO_32 == seqnr;
    if ValidCall(call) {
      GeneratedMatchesSerial(x, seqnr, call);
    }
  }

  lemma ServiceIsLawful(x: Cipher)
    ensures Lawful(ServiceOf(x))
  {
    forall batch: nat, i: nat, call: Call ensures LawfulAt(ServiceOf(x), batch, i, call) {
      ServiceIsLawfulAt(x, batch, i, call);
    }
  }

  lemma ServiceIsLawfulAt(x: Cipher, batch: nat, i: nat, call: Call)
    ensures LawfulAt(ServiceOf(x), batch, i, call)
  {
    if batch * NUMSTREAMS + i < TWO_32 {
      GeneratedForMatchesSerial(x, batch, i, call);
    }
  }

  // ---- The shared state -------------------------------------------------

  /** The thread that refills a slot, if one exists and has not been joined. */
  datatype Manager =
    | NoThread
    | Started(tid: nat, prior: nat)
    | Filling(tid: nat, prior: nat, next: nat)
    | WorkerDone(tid: nat, prior: nat, ok: bool)
    | Returned(tid: nat, ok: bool)

  datatype Slot = Slot(batchID: nat, streams: seq<KeyStreams>, manager: Manager)

  datatype MainThread = Ready | InCall(call: Call) | Stopped | Freed

  datatype Entry = Entry(seqnr: nat, call: Call, outcome: Outcome)

  /** `spawned` numbers the manager threads, `joined` and `log` record what has happened. */
  datatype State = State(
    main: MainThread, seqnr: nat, batchID: nat, slots: seq<Slot>,
    spawned: nat, joined: multiset<nat>, log: seq<Entry>)

  datatype Step =
    | Enter(call: Call)
    | Finish(spawnOk: bool)
    | ManagerCheck(slot: nat, spawnOk: bool)
    | WorkerFill(slot: nat, ok: bool)
    | WorkerReturn(slot: nat)
    | ManagerPublish(slot: nat)
    | FreeContext

  function Current(s: State): nat { s.batchID % 2 }

  /** A manager that exists but is not yet ready to be joined owns its slot. */
  predicate Live(m: Manager) {
    m.Started? || m.Filling? || m.WorkerDone?
  }

  predicate Enabled(s: State, step: Step) {
    |s.slots| == 2 &&
    match step
    case Enter(call) =>
      s.main.Ready? && ValidCall(call) && (TooShort(call) || !Live(s.slots[Current(s)].manager))
    case Finish(_) => s.main.InCall? && s.seqnr + 1 < TWO_32 && |s.slots[Current(s)].streams| == NUMSTREAMS
    case ManagerCheck(i, _) => i < 2 && s.slots[i].manager.Started?
    case WorkerFill(i, _) =>
      i < 2 && s.slots[i].manager.Filling? && s.slots[i].manager.next < NUMSTREAMS == |s.slots[i].streams|
    case WorkerReturn(i) => i < 2 && s.slots[i].manager.Filling? && s.slots[i].manager.next == NUMSTREAMS
    case ManagerPublish(i) => i < 2 && s.slots[i].manager.WorkerDone?
    case FreeContext => (s.main.Ready? || s.main.Stopped?) && !Live(s.slots[0].manager) && !Live(s.slots[1].manager)
  }

  /** A packet that was encrypted or decrypted uses up its sequence number. */
  predicate Counts(call: Call, outcome: Outcome) {
    call.CryptCall? && outcome.Crypted? && outcome.result.code == Success
  }

  function Log(s: State, call: Call, outcome: Outcome): State {
    s.(log := s.log + [Entry(s.seqnr, call, outcome)])
  }

  /** pthread_join on the manager of a slot, when there is one. */
  function Join(s: State, i: nat): State
    requires i < |s.slots| && !Live(s.slots[i].manager)
  {
    match s.slots[i].manager
    case Returned(tid, _) =>
      s.(joined := s.joined + multiset{tid}, slots := s.slots[i := s.slots[i].(manager := NoThread)])
    case _ => s
  }

  /** The start of chachapoly_crypt_mt and chachapoly_get_length_mt, up to the join. */
  function ApplyEnter(s: State, call: Call): State
    requires Enabled(s, Enter(call))
  {
    if TooShort(call) then Log(s, call, INCOMPLETE)
    else
      var m := s.slots[Current(s)].manager;
      var t := Join(s, Current(s));
      if m.Returned? && !m.ok then Log(t, call, FAILURE).(main := Stopped)
      else t.(main := InCall(call))
  }

  /** The rest of the call: count the packet and hand a used-up slot to a new manager. */
  function FinishWith(s: State, outcome: Outcome, spawnOk: bool): State
    requires Enabled(s, Finish(spawnOk))
  {
    var c := Current(s);
    var call := s.main.call;
    if !Counts(call, outcome) then Log(s, call, outcome).(main := Ready)
    else if (s.seqnr + 1) / NUMSTREAMS > s.batchID then
      if !spawnOk then Log(s, call, FAILURE).(main := Stopped, seqnr := s.seqnr + 1)
      else
        Log(s, call, outcome).(
          main := Ready, seqnr := s.seqnr + 1, batchID := (s.seqnr + 1) / NUMSTREAMS,
          slots := s.slots[c := s.slots[c].(manager := Started(s.spawned, s.batchID))],
          spawned := s.spawned + 1)
    else Log(s, call, outcome).(main := Ready, seqnr := s.seqnr + 1)
  }

  function ApplyFinish(o: Service, s: State, spawnOk: bool): State
    requires Enabled(s, Finish(spawnOk))
  {
    FinishWith(s, o.use(s.slots[Current(s)].streams[s.seqnr % NUMSTREAMS], s.main.call), spawnOk)
  }

  /** One action of the manager or the worker of a slot. */
  function ApplyRefill(o: Service, slot: Slot, step: Step): Slot
    requires step.ManagerCheck? ==> slot.manager.Started?
    requires step.WorkerFill? ==> slot.manager.Filling? && slot.manager.next < |slot.streams|
    requires step.WorkerReturn? ==> slot.manager.Filling?
    requires step.ManagerPublish? ==> slot.manager.WorkerDone?
  {
    var m := slot.manager;
    match step
    case ManagerCheck(_, spawnOk) =>
      if slot.batchID != m.prior then slot.(manager := Returned(m.tid, false))
      else if !spawnOk then slot.(manager := WorkerDone(m.tid, m.prior, false))
      else slot.(manager := Filling(m.tid, m.prior, 0))
    case WorkerFill(_, ok) =>
      if !ok then slot.(manager := WorkerDone(m.tid, m.prior, false))
      else slot.(
        streams := slot.streams[m.next := o.generate(m.prior + 2, m.next)],
        manager := Filling(m.tid, m.prior, m.next + 1))
    case WorkerReturn(_) => slot.(manager := WorkerDone(m.tid, m.prior, true))
    case ManagerPublish(_) =>
      slot.(batchID := if m.ok then m.prior + 2 else slot.batchID, manager := Returned(m.tid, m.ok))
    case _ => slot
  }

  function Apply(o: Service, s: State, step: Step): State
    requires Enabled(s, step)
  {
    match step
    case Enter(call) => ApplyEnter(s, call)
    case Finish(spawnOk) => ApplyFinish(o, s, spawnOk)
    case FreeContext => Join(Join(s, 0), 1).(main := Freed)
    case _ => s.(slots := s.slots[step.slot := ApplyRefill(o, s.slots[step.slot], step)])
  }

  /** The streams chachapoly_new_mt generates: those before the starting packet stay zero. */
  function NewStreams(o: Service, start: nat, batch: nat): seq<KeyStreams> {
    seq(NUMSTREAMS, i requires 0 <= i < NUMSTREAMS =>
      if batch * NUMSTREAMS + i < start then KeyStreams(Zeros(POLY1305_KEYLEN), Zeros(BLOCK_LEN), Zeros(KEYSTREAMLEN))
      else o.generate(batch, i))
  }

  /** Where the fill loop of a batch starts: unsigned arithmetic, stored in a signed 32-bit index. */
  function FirstIndex(start: nat, batch: nat): int {
    var refseqnr := batch * NUMSTREAMS % TWO_32;
    var j := if start > refseqnr then start - refseqnr else 0;
    if j >= TWO_32 / 2 then j - TWO_32 else j
  }

  /** The fill loops stay within their batches if and only if the starting packet is not of the last batch
      before the 32-bit wrap; there the index of the second batch is negative. */
  lemma FillIndexExact(start: nat)
    requires start < TWO_32
    ensures var b := start / NUMSTREAMS;
      (0 <= FirstIndex(start, b) <= NUMSTREAMS && 0 <= FirstIndex(start, b + 1) <= NUMSTREAMS) <==> start + NUMSTREAMS < TWO_32
    ensures start + NUMSTREAMS < TWO_32 ==>
      FirstIndex(start, start / NUMSTREAMS) == start % NUMSTREAMS && FirstIndex(start, start / NUMSTREAMS + 1) == 0
  {
    var b := start / NUMSTREAMS;
    assert b * NUMSTREAMS % TWO_32 == b * NUMSTREAMS;
    if start + NUMSTREAMS < TWO_32 {
      assert (b + 1) * NUMSTREAMS % TWO_32 == (b + 1) * NUMSTREAMS;
    } else {
      assert (b + 1) * NUMSTREAMS == TWO_32;
    }
  }

  function NewContext(o: Service, start: nat): State {
    var b := start / NUMSTREAMS;
    var low, high := Slot(b, NewStreams(o, start, b), NoThread), Slot(b + 1, NewStreams(o, start, b + 1), NoThread);
    State(Ready, start, b, if b % 2 == 0 then [low, high] else [high, low], 0, multiset{}, [])
  }

  // ---- What every step keeps --------------------------------------------

  predicate Right(o: Service, streams: seq<KeyStreams>, batch: nat, lo: nat, hi: nat)
    requires hi <= |streams|
  {
    forall i :: lo <= i < hi ==> streams[i] == o.generate(batch, i)
  }

  /** The slot serves batch `b`, or is being refilled for it: its streams are right from `lo` on. */
  predicate Serves(o: Service, slot: Slot, b: nat, lo: nat) {
    && |slot.streams| == NUMSTREAMS
    && match slot.manager
       case NoThread => slot.batchID == b && Right(o, slot.streams, b, lo, NUMSTREAMS)
       case Started(_, p) => p + 2 == b && slot.batchID == p
       case Filling(_, p, next) =>
         p + 2 == b && slot.batchID == p && next <= NUMSTREAMS && Right(o, slot.streams, b, 0, next)
       case WorkerDone(_, p, ok) =>
         p + 2 == b && slot.batchID == p && (ok ==> Right(o, slot.streams, b, 0, NUMSTREAMS))
       case Returned(_, ok) => ok ==> slot.batchID == b && Right(o, slot.streams, b, 0, NUMSTREAMS)
  }

  predicate SlotsInv(o: Service, s: State) {
    && |s.slots| == 2
    && s.batchID * NUMSTREAMS <= s.seqnr < (s.batchID + 1) * NUMSTREAMS
    && s.seqnr < TWO_32
    && Serves(o, s.slots[s.batchID % 2], s.batchID, s.seqnr - s.batchID * NUMSTREAMS)
    && Serves(o, s.slots[(s.batchID + 1) % 2], s.batchID + 1, 0)
  }

  /** Packets are numbered from `start` in the order they succeed, and every answer is the serial one. */
  predicate LogInv(o: Service, start: nat, log: seq<Entry>) {
    log == [] ||
    var before, e := log[..|log| - 1], log[|log| - 1];
    && LogInv(o, start, before)
    && ValidCall(e.call)
    && e.seqnr == start + Successes(before)
    && (e.outcome == FAILURE || e.outcome == o.serial(e.seqnr, e.call))
  }

  function Successes(log: seq<Entry>): nat {
    if log == [] then 0
    else Successes(log[..|log| - 1]) + (if Counts(log[|log| - 1].call, log[|log| - 1].outcome) then 1 else 0)
  }

  predicate HasThread(m: Manager, tid: nat) {
    !m.NoThread? && m.tid == tid
  }

  /** Each manager thread ever spawned is either still recorded in one slot or has been joined once. */
  ghost predicate ThreadsInv(s: State) {
    && |s.slots| == 2
    && (forall t: nat :: s.joined[t] + Holders(s, t) == if t < s.spawned then 1 else 0)
  }

  function Holders(s: State, t: nat): nat
    requires |s.slots| == 2
  {
    (if HasThread(s.slots[0].manager, t) then 1 else 0) + (if HasThread(s.slots[1].manager, t) then 1 else 0)
  }

  predicate Running(s: State) {
    s.main.Ready? || s.main.InCall?
  }

  /** While the main thread runs, both slots serve their batches and it owns the slot it is using. */
  predicate PipelineInv(o: Service, s: State) {
    && |s.slots| == 2
    && (Running(s) ==> SlotsInv(o, s))
    && (s.main.InCall? ==> s.slots[Current(s)].manager.NoThread?)
    && (forall i :: 0 <= i < 2 && s.slots[i].manager.Started? ==> s.slots[i].batchID == s.slots[i].manager.prior)
    && (s.main.Freed? ==> s.slots[0].manager.NoThread? && s.slots[1].manager.NoThread?)
  }

  predicate HistoryInv(o: Service, start: nat, s: State) {
    && LogInv(o, start, s.log)
    && (Running(s) ==> s.seqnr == start + Successes(s.log))
    && (s.main.InCall? ==> ValidCall(s.main.call))
  }

  ghost predicate Inv(o: Service, start: nat, s: State) {
    ThreadsInv(s) && PipelineInv(o, s) && HistoryInv(o, start, s)
  }

  lemma LogAppend(o: Service, start: nat, log: seq<Entry>, e: Entry)
    requires LogInv(o, start, log) && ValidCall(e.call) && e.seqnr == start + Successes(log)
    requires e.outcome == FAILURE || e.outcome == o.serial(e.seqnr, e.call)
    ensures LogInv(o, start, log + [e])
    ensures Successes(log + [e]) == Successes(log) + (if Counts(e.call, e.outcome) then 1 else 0)
  {
    assert (log + [e])[..|log|] == log;
  }

  /** Joining is done once per thread, and leaves the slot to the main thread. */
  lemma JoinKeeps(s: State, i: nat)
    requires ThreadsInv(s) && i < 2 && !Live(s.slots[i].manager)
    ensures s.slots[i].manager.Returned? ==> s.slots[i].manager.tid !in s.joined
    ensures ThreadsInv(Join(s, i))
    ensures Join(s, i).slots == s.slots[i := s.slots[i].(manager := NoThread)]
  {
    match s.slots[i].manager
    case Returned(tid, _) =>
      assert s.joined[tid] + Holders(s, tid) == if tid < s.spawned then 1 else 0;
    case NoThread =>
      assert s.slots[i].(manager := NoThread) == s.slots[i];
    case _ =>
  }

  /** The slots the main thread's batch and the next one live in. */
  lemma TwoSlots(b: nat)
    ensures b % 2 < 2 && (b + 1) % 2 < 2 && b % 2 != (b + 1) % 2 && (b + 2) % 2 == b % 2
  {
  }

  lemma JoinServes(o: Service, slot: Slot, b: nat, lo: nat)
    requires Serves(o, slot, b, lo) && !Live(slot.manager) && (slot.manager.Returned? ==> slot.manager.ok)
    ensures Serves(o, slot.(manager := NoThread), b, lo)
  {
  }

  lemma EnterPipeline(o: Service, s: State, call: Call)
    requires PipelineInv(o, s) && Enabled(s, Enter(call))
    ensures PipelineInv(o, ApplyEnter(s, call))
  {
    if !TooShort(call) {
      var c := Current(s);
      TwoSlots(s.batchID);
      if s.slots[c].manager.Returned? ==> s.slots[c].manager.ok {
        JoinServes(o, s.slots[c], s.batchID, s.seqnr - s.batchID * NUMSTREAMS);
      }
    }
  }

  lemma EnterHistory(o: Service, start: nat, s: State, call: Call)
    requires Lawful(o) && HistoryInv(o, start, s) && Enabled(s, Enter(call))
    ensures HistoryInv(o, start, ApplyEnter(s, call))
  {
    hide LogInv, Successes, ValidCall;
    if TooShort(call) {
      assert LawfulAt(o, 0, s.seqnr, call);
      LogAppend(o, start, s.log, Entry(s.seqnr, call, INCOMPLETE));
    } else {
      LogAppend(o, start, s.log, Entry(s.seqnr, call, FAILURE));
    }
  }

  lemma EnterThreads(s: State, call: Call)
    requires ThreadsInv(s) && Enabled(s, Enter(call))
    ensures ThreadsInv(ApplyEnter(s, call))
  {
    if !TooShort(call) {
      JoinKeeps(s, Current(s));
    }
  }

  lemma EnterKeeps(o: Service, start: nat, s: State, call: Call)
    requires Lawful(o) && Inv(o, start, s) && Enabled(s, Enter(call))
    ensures Inv(o, start, ApplyEnter(s, call))
  {
    EnterThreads(s, call);
    EnterPipeline(o, s, call);
    EnterHistory(o, start, s, call);
  }

  /** The slot the main thread reads holds the streams of the current packet. */
  lemma CurrentStreams(o: Service, start: nat, s: State)
    requires Inv(o, start, s) && s.main.InCall?
    ensures s.slots[Current(s)].streams[s.seqnr % NUMSTREAMS] == o.generate(s.batchID, s.seqnr % NUMSTREAMS)
    ensures s.batchID * NUMSTREAMS + s.seqnr % NUMSTREAMS == s.seqnr
    ensures s.slots[Current(s)].batchID == s.batchID
  {
    assert s.seqnr % NUMSTREAMS == s.seqnr - s.batchID * NUMSTREAMS;
  }

  /** The batch of the next packet. */
  lemma NextPacket(seqnr: nat, b: nat)
    requires b * NUMSTREAMS <= seqnr < (b + 1) * NUMSTREAMS
    ensures if (seqnr + 1) / NUMSTREAMS > b then (seqnr + 1) / NUMSTREAMS == b + 1 && seqnr + 1 == (b + 1) * NUMSTREAMS
            else seqnr + 1 < (b + 1) * NUMSTREAMS
  {
  }

  /** A new manager gets a number no thread has had, and its slot has no other manager. */
  lemma SpawnKeeps(s: State, i: nat, prior: nat)
    requires ThreadsInv(s) && i < 2 && s.slots[i].manager.NoThread?
    ensures ThreadsInv(s.(slots := s.slots[i := s.slots[i].(manager := Started(s.spawned, prior))], spawned := s.spawned + 1))
  {
    var t := s.(slots := s.slots[i := s.slots[i].(manager := Started(s.spawned, prior))], spawned := s.spawned + 1);
    forall tid: nat ensures t.joined[tid] + Holders(t, tid) == if tid < t.spawned then 1 else 0 {
      assert s.joined[tid] + Holders(s, tid) == if tid < s.spawned then 1 else 0;
    }
  }

  /** The finished call as a state change, with the serial answer in place of the computed one. */
  function SerialFinish(o: Service, s: State, spawnOk: bool): State
    requires Enabled(s, Finish(spawnOk))
  {
    FinishWith(s, o.serial(s.seqnr, s.main.call), spawnOk)
  }

  lemma FinishPipeline(o: Service, s: State, outcome: Outcome, spawnOk: bool)
    requires PipelineInv(o, s) && Enabled(s, Finish(spawnOk))
    ensures PipelineInv(o, FinishWith(s, outcome, spawnOk))
  {
    NextPacket(s.seqnr, s.batchID);
    TwoSlots(s.batchID);
  }

  lemma FinishHistory(o: Service, start: nat, s: State, spawnOk: bool)
    requires HistoryInv(o, start, s) && Enabled(s, Finish(spawnOk))
    ensures HistoryInv(o, start, SerialFinish(o, s, spawnOk))
  {
    var call := s.main.call;
    LogAppend(o, start, s.log, Entry(s.seqnr, call, o.serial(s.seqnr, call)));
    LogAppend(o, start, s.log, Entry(s.seqnr, call, FAILURE));
  }

  lemma FinishThreads(s: State, outcome: Outcome, spawnOk: bool)
    requires ThreadsInv(s) && Enabled(s, Finish(spawnOk)) && s.slots[Current(s)].manager.NoThread?
    ensures ThreadsInv(FinishWith(s, outcome, spawnOk))
  {
    SpawnKeeps(s, Current(s), s.batchID);
  }

  /** The answer the main thread computes from the slot is the serial one. */
  lemma FinishIsSerial(o: Service, start: nat, s: State, spawnOk: bool)
    requires Lawful(o) && Inv(o, start, s) && Enabled(s, Finish(spawnOk))
    ensures ApplyFinish(o, s, spawnOk) == SerialFinish(o, s, spawnOk)
  {
    hide FinishWith, ThreadsInv, LogInv, Successes;
    CurrentStreams(o, start, s);
    assert LawfulAt(o, s.batchID, s.seqnr % NUMSTREAMS, s.main.call);
  }

  lemma FinishKeeps(o: Service, start: nat, s: State, spawnOk: bool)
    requires Lawful(o) && Inv(o, start, s) && Enabled(s, Finish(spawnOk))
    ensures Inv(o, start, ApplyFinish(o, s, spawnOk))
  {
    FinishIsSerial(o, start, s, spawnOk);
    FinishThreads(s, o.serial(s.seqnr, s.main.call), spawnOk);
    FinishPipeline(o, s, o.serial(s.seqnr, s.main.call), spawnOk);
    FinishHistory(o, start, s, spawnOk);
  }

  lemma RefillServes(o: Service, slot: Slot, step: Step, b: nat, lo: nat)
    requires Serves(o, slot, b, lo)
    requires match step
             case ManagerCheck(_, _) => slot.manager.Started?
             case WorkerFill(_, _) => slot.manager.Filling? && slot.manager.next < NUMSTREAMS
             case WorkerReturn(_) => slot.manager.Filling? && slot.manager.next == NUMSTREAMS
             case ManagerPublish(_) => slot.manager.WorkerDone?
             case _ => false
    ensures Serves(o, ApplyRefill(o, slot, step), b, lo)
  {
  }

  predicate RefillStep(step: Step) {
    step.ManagerCheck? || step.WorkerFill? || step.WorkerReturn? || step.ManagerPublish?
  }

  lemma RefillThreads(o: Service, s: State, step: Step)
    requires ThreadsInv(s) && Enabled(s, step) && RefillStep(step)
    ensures ThreadsInv(Apply(o, s, step))
  {
    var t := Apply(o, s, step);
    forall tid: nat ensures t.joined[tid] + Holders(t, tid) == if tid < t.spawned then 1 else 0 {
      assert s.joined[tid] + Holders(s, tid) == if tid < s.spawned then 1 else 0;
    }
  }

  lemma RefillSlots(o: Service, s: State, step: Step)
    requires SlotsInv(o, s) && Enabled(s, step) && RefillStep(step)
    ensures SlotsInv(o, Apply(o, s, step))
  {
    hide Serves, ApplyRefill;
    var i := step.slot;
    TwoSlots(s.batchID);
    if i == Current(s) {
      RefillServes(o, s.slots[i], step, s.batchID, s.seqnr - s.batchID * NUMSTREAMS);
    } else {
      RefillServes(o, s.slots[i], step, s.batchID + 1, 0);
    }
  }

  lemma RefillPipeline(o: Service, s: State, step: Step)
    requires PipelineInv(o, s) && Enabled(s, step) && RefillStep(step)
    ensures PipelineInv(o, Apply(o, s, step))
  {
    if Running(s) {
      RefillSlots(o, s, step);
    }
    hide SlotsInv;
  }

  lemma RefillKeeps(o: Service, start: nat, s: State, step: Step)
    requires Inv(o, start, s) && Enabled(s, step) && RefillStep(step)
    ensures Inv(o, start, Apply(o, s, step))
  {
    hide ThreadsInv, PipelineInv, LogInv;
    RefillThreads(o, s, step);
    RefillPipeline(o, s, step);
  }

  lemma FreeKeeps(o: Service, start: nat, s: State)
    requires Inv(o, start, s) && Enabled(s, FreeContext)
    ensures Inv(o, start, Apply(o, s, FreeContext))
  {
    JoinKeeps(s, 0);
    JoinKeeps(Join(s, 0), 1);
  }

  lemma StepKeeps(o: Service, start: nat, s: State, step: Step)
    requires Lawful(o) && Inv(o, start, s) && Enabled(s, step)
    ensures Inv(o, start, Apply(o, s, step))
  {
    match step
    case Enter(call) => EnterKeeps(o, start, s, call);
    case Finish(spawnOk) => FinishKeeps(o, start, s, spawnOk);
    case FreeContext => FreeKeeps(o, start, s);
    case _ => RefillKeeps(o, start, s, step);
  }

  // ---- Whole runs -------------------------------------------------------

  predicate ValidRun(o: Service, s: State, steps: seq<Step>)
    decreases |steps|
  {
    steps == [] || (Enabled(s, steps[0]) && ValidRun(o, Apply(o, s, steps[0]), steps[1..]))
  }

  function Final(o: Service, s: State, steps: seq<Step>): State
    requires ValidRun(o, s, steps)
    decreases |steps|
  {
    if steps == [] then s else Final(o, Apply(o, s, steps[0]), steps[1..])
  }

  /** One run after another is a run. */
  lemma {:induction false} RunOn(o: Service, s: State, steps: seq<Step>, more: seq<Step>)
    requires ValidRun(o, s, steps) && ValidRun(o, Final(o, s, steps), more)
    ensures ValidRun(o, s, steps + more) && Final(o, s, steps + more) == Final(o, Final(o, s, steps), more)
    decreases |steps|
  {
    hide Enabled, Apply;
    if steps == [] {
      assert steps + more == more;
    } else {
      assert (steps + more)[0] == steps[0] && (steps + more)[1..] == steps[1..] + more;
      RunOn(o, Apply(o, s, steps[0]), steps[1..], more);
    }
  }

  /** The run `steps` of the refilling threads of slot `i` leads from one state to another. */
  ghost predicate Refills(o: Service, i: nat, s: State, steps: seq<Step>, t: State) {
    && ValidRun(o, s, steps) && Final(o, s, steps) == t
    && forall k :: 0 <= k < |steps| ==> RefillStep(steps[k]) && steps[k].slot == i
  }

  lemma RefillsFurther(o: Service, i: nat, s: State, steps: seq<Step>, t: State, more: seq<Step>, u: State)
    requires Refills(o, i, s, steps, t) && Refills(o, i, t, more, u)
    ensures Refills(o, i, s, steps + more, u)
  {
    hide ValidRun, Final;
    RunOn(o, s, steps, more);
  }

  lemma NoRefill(o: Service, i: nat, s: State)
    ensures Refills(o, i, s, [], s)
  {
  }

  lemma OneRefill(o: Service, i: nat, s: State, step: Step)
    requires Enabled(s, step) && RefillStep(step) && step.slot == i
    ensures Refills(o, i, s, [step], Apply(o, s, step))
  {
    hide Enabled, Apply;
    assert [step][1..] == [];
    assert ValidRun(o, Apply(o, s, step), []) && Final(o, Apply(o, s, step), []) == Apply(o, s, step);
  }

  lemma {:induction false} RunKeeps(o: Service, start: nat, s: State, steps: seq<Step>)
    requires Lawful(o) && Inv(o, start, s) && ValidRun(o, s, steps)
    ensures Inv(o, start, Final(o, s, steps))
    decreases |steps|
  {
    if steps != [] {
      StepKeeps(o, start, s, steps[0]);
      RunKeeps(o, start, Apply(o, s, steps[0]), steps[1..]);
    }
  }

  lemma NewContextInv(o: Service, start: nat)
    requires start + NUMSTREAMS < TWO_32
    ensures Inv(o, start, NewContext(o, start))
  {
    var b := start / NUMSTREAMS;
    TwoSlots(b);
    assert b * NUMSTREAMS <= start < (b + 1) * NUMSTREAMS;
  }

  lemma {:induction false} LogEntry(o: Service, start: nat, log: seq<Entry>, i: nat)
    requires LogInv(o, start, log) && i < |log|
    ensures ValidCall(log[i].call) && log[i].seqnr == start + Successes(log[..i])
    ensures log[i].outcome == FAILURE || log[i].outcome == o.serial(log[i].seqnr, log[i].call)
  {
    if i < |log| - 1 {
      LogEntry(o, start, log[..|log| - 1], i);
      assert log[..|log| - 1][..i] == log[..i];
    }
  }

  // ---- A failure ends the run -------------------------------------------

  /** An internal error is the last answer given, and the main thread does not run any more. */
  predicate FailureIsLast(s: State) {
    forall i :: 0 <= i < |s.log| && s.log[i].outcome == FAILURE ==> i == |s.log| - 1 && !Running(s)
  }

  lemma FailureStep(o: Service, start: nat, s: State, step: Step)
    requires Lawful(o) && Inv(o, start, s) && Enabled(s, step) && FailureIsLast(s)
    ensures FailureIsLast(Apply(o, s, step))
  {
    hide SlotsInv, ThreadsInv, LogInv, Serves;
    match step
    case Enter(call) =>
    case Finish(spawnOk) =>
      FinishIsSerial(o, start, s, spawnOk);
      assert LawfulAt(o, 0, s.seqnr, s.main.call);
    case _ =>
  }

  lemma {:induction false} FailureRun(o: Service, start: nat, s: State, steps: seq<Step>)
    requires Lawful(o) && Inv(o, start, s) && ValidRun(o, s, steps) && FailureIsLast(s)
    ensures FailureIsLast(Final(o, s, steps))
    decreases |steps|
  {
    hide Inv, Apply, Enabled, FailureIsLast;
    if steps != [] {
      FailureStep(o, start, s, steps[0]);
      StepKeeps(o, start, s, steps[0]);
      FailureRun(o, start, Apply(o, s, steps[0]), steps[1..]);
    }
  }

  /**
   In every interleaving, every packet is encrypted or decrypted, or its length
   read, exactly as the serial cipher does for its sequence number, and the
   numbers follow the order of the calls; a thread failure shows as an internal
   error, which is the last answer of the run.
   */
  lemma EveryRunIsSerial(x: Cipher, start: nat, steps: seq<Step>, i: nat)
    requires start + NUMSTREAMS < TWO_32
    requires ValidRun(ServiceOf(x), NewContext(ServiceOf(x), start), steps)
    requires i < |Final(ServiceOf(x), NewContext(ServiceOf(x), start), steps).log|
    ensures var s := Final(ServiceOf(x), NewContext(ServiceOf(x), start), steps);
            var e := s.log[i];
            && ValidCall(e.call) && e.seqnr == start + Successes(s.log[..i])
            && (if e.outcome == FAILURE then i == |s.log| - 1 && !Running(s) else e.outcome == Serial(x, e.seqnr, e.call))
  {
    var o := ServiceOf(x);
    ServiceIsLawful(x);
    NewContextInv(o, start);
    RunKeeps(o, start, NewContext(o, start), steps);
    FailureRun(o, start, NewContext(o, start), steps);
    LogEntry(o, start, Final(o, NewContext(o, start), steps).log, i);
  }

  // ---- Runs without thread failures -------------------------------------

  /** No thread fails to start or to fill its streams in this step. */
  predicate OkStep(step: Step) {
    match step
    case Finish(ok) => ok
    case ManagerCheck(_, ok) => ok
    case WorkerFill(_, ok) => ok
    case _ => true
  }

  /** No failure has been recorded. */
  predicate NoFailure(s: State) {
    && |s.slots| == 2 && !s.main.Stopped?
    && forall i :: 0 <= i < 2 ==>
         match s.slots[i].manager
         case WorkerDone(_, _, ok) => ok
         case Returned(_, ok) => ok
         case _ => true
  }

  predicate AllSerial(o: Service, log: seq<Entry>) {
    forall i :: 0 <= i < |log| ==> log[i].outcome == o.serial(log[i].seqnr, log[i].call)
  }

  lemma OkMainStep(o: Service, start: nat, s: State, step: Step)
    requires Lawful(o) && Inv(o, start, s) && Enabled(s, step) && OkStep(step) && !RefillStep(step)
    requires NoFailure(s) && AllSerial(o, s.log)
    ensures NoFailure(Apply(o, s, step)) && AllSerial(o, Apply(o, s, step).log)
  {
    hide SlotsInv, HistoryInv, ThreadsInv;
    match step
    case Enter(call) => assert LawfulAt(o, 0, s.seqnr, call);
    case Finish(spawnOk) => FinishIsSerial(o, start, s, spawnOk);
    case _ =>
  }

  lemma OkRefillStep(o: Service, s: State, step: Step)
    requires PipelineInv(o, s) && Enabled(s, step) && OkStep(step) && RefillStep(step) && NoFailure(s)
    ensures NoFailure(Apply(o, s, step)) && Apply(o, s, step).log == s.log
  {
    hide SlotsInv;
  }

  lemma OkStepKeeps(o: Service, start: nat, s: State, step: Step)
    requires Lawful(o) && Inv(o, start, s) && Enabled(s, step) && OkStep(step)
    requires NoFailure(s) && AllSerial(o, s.log)
    ensures NoFailure(Apply(o, s, step)) && AllSerial(o, Apply(o, s, step).log)
  {
    hide ThreadsInv, PipelineInv, HistoryInv, NoFailure, AllSerial, Apply, Enabled;
    if RefillStep(step) {
      OkRefillStep(o, s, step);
    } else {
      OkMainStep(o, start, s, step);
    }
  }

  lemma {:induction false} OkRun(o: Service, start: nat, s: State, steps: seq<Step>)
    requires Lawful(o) && Inv(o, start, s) && ValidRun(o, s, steps) && NoFailure(s) && AllSerial(o, s.log)
    requires forall i :: 0 <= i < |steps| ==> OkStep(steps[i])
    ensures NoFailure(Final(o, s, steps)) && AllSerial(o, Final(o, s, steps).log)
    decreases |steps|
  {
    if steps != [] {
      OkStepKeeps(o, start, s, steps[0]);
      StepKeeps(o, start, s, steps[0]);
      OkRun(o, start, Apply(o, s, steps[0]), steps[1..]);
    }
  }

  /** In every interleaving without a thread failure the cipher never stops, and every answer is the serial one. */
  lemma ErrorFreeRunIsSerial(x: Cipher, start: nat, steps: seq<Step>, i: nat)
    requires start + NUMSTREAMS < TWO_32
    requires ValidRun(ServiceOf(x), NewContext(ServiceOf(x), start), steps)
    requires forall k :: 0 <= k < |steps| ==> OkStep(steps[k])
    ensures !Final(ServiceOf(x), NewContext(ServiceOf(x), start), steps).main.Stopped?
    ensures var log := Final(ServiceOf(x), NewContext(ServiceOf(x), start), steps).log;
            i < |log| ==> ValidCall(log[i].call) && log[i].outcome == Serial(x, log[i].seqnr, log[i].call)
  {
    var o := ServiceOf(x);
    ServiceIsLawful(x);
    NewContextInv(o, start);
    OkRun(o, start, NewContext(o, start), steps);
    RunKeeps(o, start, NewContext(o, start), steps);
    var log := Final(o, NewContext(o, start), steps).log;
    if i < |log| {
      LogEntry(o, start, log, i);
    }
  }

  /**
   The step touches no slot another thread owns: the main thread uses and hands
   over a slot only when it has no manager, joins a thread only once, and a
   refilling thread never finds a foreign batch or the slot in use.
   */
  predicate Undisturbing(o: Service, s: State, step: Step)
    requires Enabled(s, step)
  {
    var c, t := Current(s), Apply(o, s, step);
    && |t.slots| == 2
    && (step.Finish? ==> s.slots[c].manager.NoThread? && t.slots[1 - c] == s.slots[1 - c])
    && (step.Enter? && t.main.InCall? ==> t.slots[c].manager.NoThread?)
    && (step.Enter? && !TooShort(step.call) && s.slots[c].manager.Returned? ==> s.slots[c].manager.tid !in s.joined)
    && (RefillStep(step) ==> (s.main.InCall? ==> step.slot != c) && t.slots[1 - step.slot] == s.slots[1 - step.slot])
    && (step.ManagerCheck? ==> s.slots[step.slot].batchID == s.slots[step.slot].manager.prior)
  }

  lemma StepUndisturbing(o: Service, start: nat, s: State, step: Step)
    requires Lawful(o) && Inv(o, start, s) && Enabled(s, step)
    ensures Undisturbing(o, s, step)
  {
    if step.Enter? && !TooShort(step.call) {
      JoinKeeps(s, Current(s));
    }
  }

  /** Whatever step can follow whatever run, nobody touches a slot another thread owns. */
  lemma NoInterference(x: Cipher, start: nat, steps: seq<Step>, step: Step)
    requires start + NUMSTREAMS < TWO_32
    requires ValidRun(ServiceOf(x), NewContext(ServiceOf(x), start), steps)
    requires Enabled(Final(ServiceOf(x), NewContext(ServiceOf(x), start), steps), step)
    ensures Undisturbing(ServiceOf(x), Final(ServiceOf(x), NewContext(ServiceOf(x), start), steps), step)
  {
    hide Undisturbing, Enabled;
    var o := ServiceOf(x);
    ServiceIsLawful(x);
    NewContextInv(o, start);
    RunKeeps(o, start, NewContext(o, start), steps);
    StepUndisturbing(o, start, Final(o, NewContext(o, start), steps), step);
  }

  /** Every manager spawned in a run that ends in free was joined, and joined once. */
  lemma ManagersJoinedOnce(x: Cipher, start: nat, steps: seq<Step>, tid: nat)
    requires start + NUMSTREAMS < TWO_32
    requires ValidRun(ServiceOf(x), NewContext(ServiceOf(x), start), steps)
    requires Final(ServiceOf(x), NewContext(ServiceOf(x), start), steps).main.Freed?
    ensures var s := Final(ServiceOf(x), NewContext(ServiceOf(x), start), steps);
            s.joined[tid] == if tid < s.spawned then 1 else 0
  {
    var o := ServiceOf(x);
    ServiceIsLawful(x);
    NewContextInv(o, start);
    RunKeeps(o, start, NewContext(o, start), steps);
    var s := Final(o, NewContext(o, start), steps);
    assert s.joined[tid] + Holders(s, tid) == if tid < s.spawned then 1 else 0;
  }

  /** How many steps a manager is away from being joinable. */
  function Work(m: Manager): nat {
    match m
    case Started(_, _) => NUMSTREAMS + 3
    case Filling(_, _, next) => if next <= NUMSTREAMS then NUMSTREAMS + 2 - next else 2
    case WorkerDone(_, _, _) => 1
    case _ => 0
  }

  function NextRefill(m: Manager, i: nat): Step
    requires Live(m)
  {
    match m
    case Started(_, _) => ManagerCheck(i, true)
    case Filling(_, _, next) => if next < NUMSTREAMS then WorkerFill(i, true) else WorkerReturn(i)
    case WorkerDone(_, _, _) => ManagerPublish(i)
  }

  /** A main thread waiting in join is never stuck: the manager can act, and acts finitely often. */
  lemma JoinReturns(o: Service, start: nat, s: State, i: nat, step: Step)
    requires Inv(o, start, s) && Running(s) && i < 2 && Live(s.slots[i].manager)
    ensures Enabled(s, NextRefill(s.slots[i].manager, i))
    ensures Enabled(s, step) && RefillStep(step) && step.slot == i ==>
              Work(Apply(o, s, step).slots[i].manager) < Work(s.slots[i].manager)
  {
    TwoSlots(s.batchID);
  }

  /** After the join, a running call finds its own streams and ends as the serial cipher would. */
  lemma EnteredService(o: Service, start: nat, s: State, call: Call, spawnOk: bool)
    requires Lawful(o) && Inv(o, start, s) && Enabled(s, Enter(call)) && !TooShort(call) && s.seqnr + 1 < TWO_32
    requires ApplyEnter(s, call).main.InCall?
    ensures var e := ApplyEnter(s, call);
            && Enabled(e, Finish(spawnOk))
            && e.slots[Current(s)].streams[s.seqnr % NUMSTREAMS] == o.generate(s.batchID, s.seqnr % NUMSTREAMS)
            && s.batchID * NUMSTREAMS + s.seqnr % NUMSTREAMS == s.seqnr
            && ApplyFinish(o, e, spawnOk) == FinishWith(e, o.serial(s.seqnr, call), spawnOk)
  {
    EnterKeeps(o, start, s, call);
    var e := ApplyEnter(s, call);
    CurrentStreams(o, start, e);
    FinishIsSerial(o, start, e, spawnOk);
  }

  lemma EnteredCall(x: Cipher, start: nat, s: State, call: Call, spawnOk: bool)
    requires Inv(ServiceOf(x), start, s) && Enabled(s, Enter(call)) && !TooShort(call) && s.seqnr + 1 < TWO_32
    requires ApplyEnter(s, call).main.InCall?
    ensures var e := ApplyEnter(s, call);
            && Enabled(e, Finish(spawnOk))
            && e.slots[Current(s)].streams[s.seqnr % NUMSTREAMS] == Generate(x, s.seqnr)
            && ApplyFinish(ServiceOf(x), e, spawnOk) == FinishWith(e, Serial(x, s.seqnr, call), spawnOk)
  {
    hide Inv, Generate, Serial, FinishWith, ApplyFinish;
    ServiceIsLawful(x);
    EnteredService(ServiceOf(x), start, s, call, spawnOk);
  }

  // ---- The context object -----------------------------------------------

  /** The context as the threads share it; ghost fields record the run. */
  class ContextMt {
    const x: Cipher
    var seqnr: nat
    var batchID: nat
    var slots: seq<Slot>
    ghost var main: MainThread
    var spawned: nat
    ghost var joined: multiset<nat>
    ghost var log: seq<Entry>

    ghost function View(): State
      reads this
    {
      State(main, seqnr, batchID, slots, spawned, joined, log)
    }

    /** chachapoly_new_mt: fills both batches from the starting packet on. */
    constructor (x: Cipher, start: nat)
      requires start + NUMSTREAMS < TWO_32
      ensures this.x == x && View() == NewContext(ServiceOf(x), start)
    {
      this.x := x;
      seqnr, batchID := start, start / NUMSTREAMS;
      main, spawned, joined, log := Ready, 0, multiset{}, [];
      var b := start / NUMSTREAMS;
      var low := FillBatch(x, start, b);
      var high := FillBatch(x, start, b + 1);
      var first, second := Slot(b, low, NoThread), Slot(b + 1, high, NoThread);
      slots := if b % 2 == 0 then [first, second] else [second, first];
    }

    /** One turn of the fill loop of chachapoly_new_mt, with its 32-bit loop index. */
    static method FillBatch(x: Cipher, start: nat, batch: nat) returns (streams: seq<KeyStreams>)
      requires start + NUMSTREAMS < TWO_32 && (batch == start / NUMSTREAMS || batch == start / NUMSTREAMS + 1)
      ensures streams == NewStreams(ServiceOf(x), start, batch)
    {
      hide Generate, Zeros;
      FillIndexExact(start);
      var blank := KeyStreams(Zeros(POLY1305_KEYLEN), Zeros(BLOCK_LEN), Zeros(KEYSTREAMLEN));
      streams := seq(NUMSTREAMS, _ => blank);
      var j := FirstIndex(start, batch);
      while j < NUMSTREAMS
        invariant FirstIndex(start, batch) <= j <= NUMSTREAMS && |streams| == NUMSTREAMS
        invariant forall i :: 0 <= i < j ==> streams[i] == NewStreams(ServiceOf(x), start, batch)[i]
        invariant forall i :: j <= i < NUMSTREAMS ==> streams[i] == blank
      {
        streams := streams[j := GenerateFor(x, batch, j)];
        j := j + 1;
      }
    }

    /** join_manager_thread and the reset of the thread id; false when the manager reported an error. */
    method JoinManager(i: nat) returns (ok: bool)
      requires |slots| == 2 && i < 2 && !Live(slots[i].manager)
      modifies this`slots, this`joined
      ensures View() == Join(old(View()), i)
      ensures ok == (slots[i].manager == old(slots[i].manager) || old(slots[i].manager).ok)
    {
      var m := slots[i].manager;
      if m == NoThread {
        return true;
      }
      joined := joined + multiset{m.tid};
      slots := slots[i := slots[i].(manager := NoThread)];
      return m.ok;
    }

    /**
     chachapoly_crypt_mt, called once the manager of the current slot can be
     joined. The code and the bytes are those of the serial cipher unless a
     thread failure is reported.
     */
    method CryptMt(dest: array<byte>, src: array<byte>, len: nat, aadlen: nat, encrypt: bool, spawnOk: bool, ghost start: nat)
      returns (r: Code)
      requires main == Ready && seqnr + 1 < TWO_32 && Inv(ServiceOf(x), start, View())
      requires !Live(slots[batchID % 2].manager) && ValidCall(CryptCall(src[..], len, aadlen, encrypt))
      requires aadlen + len + (if encrypt then POLY1305_TAGLEN else 0) <= dest.Length
      modifies this, dest
      ensures var call := CryptCall(old(src[..]), len, aadlen, encrypt);
              var res := SerialCrypt(x, old(seqnr), old(src[..]), len, aadlen, encrypt);
              var entered := ApplyEnter(old(View()), call);
              if entered.main.Stopped? then View() == entered && r == InternalError && dest[..] == old(dest[..])
              else
                && View() == ApplyFinish(ServiceOf(x), entered, spawnOk)
                && r == (if View().main.Stopped? then InternalError else res.code)
                && dest[..|res.bytes|] == res.bytes && dest[|res.bytes|..] == old(dest[|res.bytes|..])
    {
      ghost var call := CryptCall(src[..], len, aadlen, encrypt);
      ghost var entered := ApplyEnter(View(), call);
      if entered.main.InCall? {
        EnteredCall(x, start, View(), call, spawnOk);
        GeneratedMatchesSerial(x, seqnr, call);
      }
      var ok := JoinManager(batchID % 2);
      if !ok {
        main, log := Stopped, log + [Entry(seqnr, call, FAILURE)];
        return InternalError;
      }
      main := InCall(call);
      assert View() == entered;
      var ks := slots[batchID % 2].streams[seqnr % NUMSTREAMS];
      r := CryptPacket(x, ks.polyKey, ks.header, ks.main, dest, src, len, aadlen, encrypt);
      r := Settle(r, Crypted(SerialCrypt(x, seqnr, call.src, len, aadlen, encrypt)), spawnOk);
    }

    /** The end of chachapoly_crypt_mt: advance past a successful packet and replace a used-up batch. */
    method Settle(r: Code, ghost outcome: Outcome, spawnOk: bool) returns (code: Code)
      requires Enabled(View(), Finish(spawnOk)) && main.call.CryptCall?
      requires outcome.Crypted? && outcome.result.code == r
      modifies this
      ensures View() == FinishWith(old(View()), outcome, spawnOk)
      ensures code == if main.Stopped? then InternalError else r
    {
      ghost var entry := Entry(seqnr, main.call, outcome);
      if r != Success {
        main, log := Ready, log + [entry];
        return r;
      }
      seqnr := seqnr + 1;
      if seqnr / NUMSTREAMS > batchID {
        if !spawnOk {
          main, log := Stopped, log + [entry.(outcome := FAILURE)];
          return InternalError;
        }
        var c := batchID % 2;
        slots := slots[c := slots[c].(manager := Started(spawned, batchID))];
        spawned := spawned + 1;
        batchID := seqnr / NUMSTREAMS;
      }
      main, log := Ready, log + [entry];
      return r;
    }

    /** chachapoly_get_length_mt, called once the manager of the current slot can be joined. */
    method GetLengthMt(cp: seq<byte>, ghost start: nat) returns (r: Length)
      requires main == Ready && seqnr + 1 < TWO_32 && Inv(ServiceOf(x), start, View())
      requires Enabled(View(), Enter(LengthCall(cp)))
      modifies this
      ensures var entered := ApplyEnter(old(View()), LengthCall(cp));
              if TooShort(LengthCall(cp)) then View() == entered && r == SerialGetLength(x, old(seqnr), cp)
              else if entered.main.Stopped? then View() == entered && r.code == InternalError
              else View() == ApplyFinish(ServiceOf(x), entered, true) && r == SerialGetLength(x, old(seqnr), cp)
    {
      ghost var call := LengthCall(cp);
      if |cp| < 4 {
        log := log + [Entry(seqnr, call, INCOMPLETE)];
        return Length(MessageIncomplete, 0);
      }
      ghost var entered := ApplyEnter(View(), call);
      if entered.main.InCall? {
        EnteredCall(x, start, View(), call, true);
        GeneratedMatchesSerial(x, seqnr, call);
      }
      var ok := JoinManager(batchID % 2);
      if !ok {
        main, log := Stopped, log + [Entry(seqnr, call, FAILURE)];
        return Length(InternalError, 0);
      }
      main := InCall(call);
      assert View() == entered;
      r := Measure(cp);
    }

    /** Decrypts the four length bytes with the header stream of the current packet. */
    method Measure(cp: seq<byte>) returns (r: Length)
      requires Enabled(View(), Finish(true)) && main == InCall(LengthCall(cp)) && |cp| >= 4
      requires WellSized(slots[batchID % 2].streams[seqnr % NUMSTREAMS])
      modifies this
      ensures Measured(r) == CryptWith(x, old(slots[batchID % 2].streams[seqnr % NUMSTREAMS]), LengthCall(cp))
      ensures View() == FinishWith(old(View()), Measured(r), true)
    {
      var ks := slots[batchID % 2].streams[seqnr % NUMSTREAMS];
      r := Length(Success, PeekU32(XorBytes(cp[..4], ks.header)));
      main, log := Ready, log + [Entry(seqnr, LengthCall(cp), Measured(r))];
    }

    /** An action of a refilling thread that has just been taken follows the ghost run. */
    ghost method Took(i: nat, s: State, steps: seq<Step>, t: State, step: Step) returns (more: seq<Step>)
      requires Refills(ServiceOf(x), i, s, steps, t) && Enabled(t, step) && RefillStep(step) && step.slot == i
      requires View() == Apply(ServiceOf(x), t, step)
      ensures Refills(ServiceOf(x), i, s, more, View()) && more == steps + [step]
    {
      hide Refills, Enabled, Apply, ServiceOf;
      OneRefill(ServiceOf(x), i, t, step);
      RefillsFurther(ServiceOf(x), i, s, steps, t, [step], View());
      more := steps + [step];
    }

    /** worker_thread, whose keystream number `failAt` cannot be generated, if there is one: fills the streams of
        the batch in order up to there, and reports whether it filled them all. It does so by a run of the steps of
        this slot's threads. */
    method WorkerThread(i: nat, failAt: nat) returns (ghost steps: seq<Step>)
      requires |slots| == 2 && i < 2 && |slots[i].streams| == NUMSTREAMS
      requires slots[i].manager.Filling? && slots[i].manager.next == 0
      modifies this`slots
      ensures |slots| == 2 && slots[1 - i] == old(slots[1 - i]) && slots[i].batchID == old(slots[i].batchID)
      ensures |slots[i].streams| == NUMSTREAMS
      ensures Right(ServiceOf(x), slots[i].streams, old(slots[i].manager.prior) + 2, 0,
                    if failAt < NUMSTREAMS then failAt else NUMSTREAMS)
      ensures forall k :: failAt <= k < NUMSTREAMS ==> slots[i].streams[k] == old(slots[i].streams[k])
      ensures var m := old(slots[i].manager); slots[i].manager == WorkerDone(m.tid, m.prior, failAt >= NUMSTREAMS)
      ensures Refills(ServiceOf(x), i, old(View()), steps, View())
    {
      hide GenerateFor, Refills;
      var m := slots[i].manager;
      ghost var from, other := View(), slots[1 - i];
      steps := [];
      NoRefill(ServiceOf(x), i, from);
      var k, ok := 0, true;
      while k < NUMSTREAMS && ok
        invariant k <= NUMSTREAMS && k <= failAt && (!ok ==> k == failAt < NUMSTREAMS)
        invariant |slots| == 2 && slots[1 - i] == other && |slots[i].streams| == NUMSTREAMS
        invariant slots[i].batchID == old(slots[i].batchID)
        invariant slots[i].manager == if ok then Filling(m.tid, m.prior, k) else WorkerDone(m.tid, m.prior, false)
        invariant Right(ServiceOf(x), slots[i].streams, m.prior + 2, 0, k)
        invariant forall j :: k <= j < NUMSTREAMS ==> slots[i].streams[j] == old(slots[i].streams[j])
        invariant Refills(ServiceOf(x), i, from, steps, View())
        decreases NUMSTREAMS - k, ok
      {
        ghost var t := View();
        if k == failAt {
          ok := false;
          slots := slots[i := slots[i].(manager := WorkerDone(m.tid, m.prior, false))];
        } else {
          var streams := slots[i].streams[k := GenerateFor(x, m.prior + 2, k)];
          k := k + 1;
          slots := slots[i := Slot(slots[i].batchID, streams, Filling(m.tid, m.prior, k))];
        }
        steps := Took(i, from, steps, t, WorkerFill(i, ok));
      }
      if ok {
        ghost var t := View();
        slots := slots[i := slots[i].(manager := WorkerDone(m.tid, m.prior, true))];
        steps := Took(i, from, steps, t, WorkerReturn(i));
      }
    }

    /** manager_thread: refills the slot for the batch two further on, by a run of the steps of this slot's threads.
        It fails, and leaves the slot under its old batch number, if the slot is not the one it was started for, its
        worker does not start, or its worker fails. */
    method ManagerThread(i: nat, workerStarts: bool, failAt: nat) returns (ghost steps: seq<Step>)
      requires |slots| == 2 && i < 2 && |slots[i].streams| == NUMSTREAMS && slots[i].manager.Started?
      modifies this`slots
      ensures |slots| == 2 && slots[1 - i] == old(slots[1 - i]) && |slots[i].streams| == NUMSTREAMS
      ensures var was := old(slots[i]);
              var ok := was.batchID == was.manager.prior && workerStarts && failAt >= NUMSTREAMS;
              && slots[i].manager == Returned(was.manager.tid, ok)
              && slots[i].batchID == (if ok then was.manager.prior + 2 else was.batchID)
              && (ok ==> Right(ServiceOf(x), slots[i].streams, was.manager.prior + 2, 0, NUMSTREAMS))
              && (was.batchID != was.manager.prior || !workerStarts ==> slots[i].streams == was.streams)
      ensures Refills(ServiceOf(x), i, old(View()), steps, View())
    {
      hide Right, GenerateFor, Refills;
      var m := slots[i].manager;
      ghost var from := View();
      NoRefill(ServiceOf(x), i, from);
      if slots[i].batchID != m.prior {
        slots := slots[i := slots[i].(manager := Returned(m.tid, false))];
        steps := Took(i, from, [], from, ManagerCheck(i, workerStarts));
        return;
      }
      if workerStarts {
        slots := slots[i := slots[i].(manager := Filling(m.tid, m.prior, 0))];
        steps := Took(i, from, [], from, ManagerCheck(i, true));
        ghost var started := View();
        ghost var fills := WorkerThread(i, failAt);
        RefillsFurther(ServiceOf(x), i, from, steps, started, fills, View());
        steps := steps + fills;
      } else {
        slots := slots[i := slots[i].(manager := WorkerDone(m.tid, m.prior, false))];
        steps := Took(i, from, [], from, ManagerCheck(i, false));
      }
      ghost var done := View();
      var ok := slots[i].manager.ok;
      slots := slots[i := slots[i].(batchID := if ok then m.prior + 2 else slots[i].batchID, manager := Returned(m.tid, ok))];
      steps := Took(i, from, steps, done, ManagerPublish(i));
    }

    /** chachapoly_free_mt in the process that made the context, called once both managers can be joined: joins those
        there are, whatever they report. */
    method FreeMt()
      requires Enabled(View(), FreeContext)
      modifies this`slots, this`joined, this`main
      ensures View() == Apply(ServiceOf(x), old(View()), FreeContext)
    {
      var _ := JoinManager(0);
      var _ := JoinManager(1);
      main := Freed;
    }
  }
}
