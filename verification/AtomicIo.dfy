/**
 Complete transfers over calls that may be partial, as atomicio.c makes them.
 What the operating system and the callback do is a script of events, one for
 each call; a call never moves more than it was given.
 */
module AtomicIo {
  import opened Octets

  datatype Reply = Interrupted | TryAgain | Broken | Eof | Moved(want: nat)

  /** One call of read or write, and what the callback then answers. */
  datatype Event = Event(reply: Reply, goOn: bool)

  datatype Status = Done | Invalid | Failed | Pipe | Stopped | Waiting

  function Concat(iov: seq<Bytes>): Bytes { if iov == [] then [] else iov[0] + Concat(iov[1..]) }

  /** How many calls of a script moved data. */
  function Moves(script: seq<Event>, n: nat): nat
    requires n <= |script|
  {
    if n == 0 then 0 else Moves(script, n - 1) + if script[n - 1].reply.Moved? then 1 else 0
  }

  /** The number of bytes a call moves: at least one, at most all that is left. */
  function Taken(want: nat, left: nat): nat { if want == 0 then 1 else if want <= left then want else left }

  /** Dropping what is done from the front of the vector drops it from the bytes. */
  lemma DropFirst(iov: seq<Bytes>, n: nat)
    requires iov != [] && |iov[0]| <= n <= |Concat(iov)|
    ensures n - |iov[0]| <= |Concat(iov[1..])| && Concat(iov)[n..] == Concat(iov[1..])[n - |iov[0]|..]
  {
  }

  lemma DropPart(iov: seq<Bytes>, n: nat)
    requires iov != [] && n <= |iov[0]|
    ensures Concat(iov)[n..] == Concat([iov[0][n..]] + iov[1..])
  {
    assert ([iov[0][n..]] + iov[1..])[1..] == iov[1..];
  }

  lemma Split(moved: Bytes, all: Bytes, n: nat)
    requires n <= |all|
    ensures moved + all == moved + all[..n] + all[n..]
  {
  }

  /** The update of the vector after `n` bytes: entries that are complete are skipped, and the first of the
      others is shortened. `ok` would be false in the case the source answers with EFAULT; it never is. */
  method AdvanceVector(iov: seq<Bytes>, n: nat) returns (rest: seq<Bytes>, ok: bool)
    requires n <= |Concat(iov)|
    ensures ok && Concat(rest) == Concat(iov)[n..] && (rest != [] ==> rest[0] != [])
  {
    rest := iov;
    var rem := n;
    while |rest| > 0 && rem >= |rest[0]|
      invariant 0 <= rem <= |Concat(rest)| && Concat(rest)[rem..] == Concat(iov)[n..]
      decreases |rest|
    {
      DropFirst(rest, rem);
      rem := rem - |rest[0]|;
      rest := rest[1..];
    }
    ok := !(rem > 0 && (|rest| == 0 || rem > |rest[0]|));
    if |rest| == 0 {
      assert Concat(rest)[rem..] == [];
      return;
    }
    DropPart(rest, rem);
    rest := [rest[0][rem..]] + rest[1..];
  }

  /** atomiciov6. Whatever the partial transfers, interrupts and retries: what has been moved is exactly a prefix
      of the segments' bytes and the remaining vector is exactly the rest; a normal end with a non-empty first
      segment has moved everything; and every call that moves data brings that end nearer. */
  method Atomiciov6(iov: seq<Bytes>, iovMax: nat, script: seq<Event>)
    returns (r: nat, status: Status, moved: Bytes, rest: seq<Bytes>)
    ensures moved + Concat(rest) == Concat(iov)
    ensures status == Invalid <==> |iov| > iovMax
    ensures status == Done && (iov == [] || iov[0] != []) ==> r == |Concat(iov)| && moved == Concat(iov)
    ensures status == Done && iov != [] && iov[0] == [] ==> r == 0
    ensures status in {Pipe, Stopped} ==> r == |moved|
    ensures status in {Failed, Invalid} ==> r == 0
    ensures status == Waiting ==> Moves(script, |script|) <= |moved| && moved != Concat(iov)
  {
    moved, rest, r := [], iov, 0;
    assert [] + Concat(iov) == Concat(iov);
    if |iov| > iovMax {
      return 0, Invalid, [], iov;
    }
    var i := 0;
    while |rest| > 0 && |rest[0]| > 0 && i < |script|
      invariant 0 <= i <= |script| && moved + Concat(rest) == Concat(iov)
      invariant rest == iov || (rest != [] ==> rest[0] != [])
      invariant iov != [] && iov[0] == [] ==> rest == iov && moved == []
      invariant Moves(script, i) <= |moved|
      decreases |script| - i
    {
      var e := script[i];
      i := i + 1;
      match e.reply {
        case Interrupted =>
          if !e.goOn {
            return |moved|, Stopped, moved, rest;
          }
        case TryAgain =>
        case Broken => return 0, Failed, moved, rest;
        case Eof => return |moved|, Pipe, moved, rest;
        case Moved(want) =>
          var all := Concat(rest);
          assert |all| > 0;
          var n := Taken(want, |all|);
          Split(moved, all, n);
          moved := moved + all[..n];
          var fine;
          rest, fine := AdvanceVector(rest, n);
          assert fine;
          if !e.goOn {
            return |moved|, Stopped, moved, rest;
          }
      }
    }
    r := |moved|;
    status := if |rest| > 0 && |rest[0]| > 0 then Waiting else Done;
    assert rest == [] ==> moved + [] == moved;
  }

  /** atomicio6, for one buffer: whatever the partial transfers, interrupts and retries, the bytes moved are, in order
      and once each, those before `pos`; a normal end has moved them all. */
  method Atomicio6(s: Bytes, script: seq<Event>) returns (r: nat, status: Status, pos: nat, moved: Bytes)
    ensures pos <= |s| && moved == s[..pos] && status in {Done, Failed, Pipe, Stopped, Waiting}
    ensures status == Done ==> r == pos == |s|
    ensures status in {Pipe, Stopped} ==> r == pos
    ensures status == Failed ==> r == 0
    ensures status == Waiting ==> Moves(script, |script|) <= pos < |s|
  {
    pos, r, moved := 0, 0, [];
    var i := 0;
    while |s| > pos && i < |script|
      invariant 0 <= i <= |script| && pos <= |s| && moved == s[..pos] && Moves(script, i) <= pos
    {
      var e := script[i];
      i := i + 1;
      match e.reply {
        case Interrupted =>
          if !e.goOn {
            return pos, Stopped, pos, moved;
          }
        case TryAgain =>
        case Broken => return 0, Failed, pos, moved;
        case Eof => return pos, Pipe, pos, moved;
        case Moved(want) =>
          var n := Taken(want, |s| - pos);
          moved := moved + s[pos..pos + n];
          pos := pos + n;
          if !e.goOn {
            return pos, Stopped, pos, moved;
          }
      }
    }
    r := pos;
    status := if |s| > pos then Waiting else Done;
  }
}
