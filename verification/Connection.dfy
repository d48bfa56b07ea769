/** What one operation on a connection does, for the unsplit connection and for the split halves, and
    the proof that the two agree (usbip/src/client.rs). */
module Connection {
  import opened Bytes
  import opened Protocol
  import opened Commands
  import opened Responses

  /** A connection as a value. The transport accepts `room` more bytes before writes fail; `inp` has
      arrived and is unread. */
  datatype Conn = Conn(devid: u32, next: u32, shared: Shared, sent: seq<byte>, room: nat, inp: seq<byte>) {
    function Alloc(): Conn {
      this.(next := (next + 1) % 0x1_0000_0000)
    }

    predicate Fits(bs: seq<byte>) {
      |bs| <= room
    }

    /** A write delivers everything, or a strict prefix and then fails. */
    function Write(bs: seq<byte>): Conn {
      var n := Min(|bs|, room);
      this.(sent := sent + bs[..n], room := room - n)
    }

    function NextCommand(call: Call): Command {
      Command(next, devid, call)
    }

    predicate KeyInUse(seqnum: u32, call: Call) {
      match call
      case SubmitCall(_, _, _, _, _, _, _) => seqnum in shared.pending
      case UnlinkCall(_) => seqnum in shared.unlinks
    }

    /** No remembered sequence number is still to be allocated. */
    ghost predicate Fresh() {
      && (forall q | q in shared.pending :: q < next)
      && (forall q | q in shared.unlinks :: q < next)
    }
  }

  datatype Op =
    | Send(call: Call)
    | Receive
    | Arrive(bytes: seq<byte>)  // the server's bytes become readable
    | Accept(room: nat)         // the transport changes how much it will take

  datatype Answer = Allocated(seqnum: u32) | WriteFailed | Received(received: Received) | Quiet

  function Environment(c: Conn, op: Op): (Conn, Answer)
    requires !op.Send?
  {
    match op
    case Receive => var (r, sh, rest) := Recv(c.inp, c.shared); (c.(shared := sh, inp := rest), Received(r))
    case Arrive(bs) => (c.(inp := c.inp + bs), Quiet)
    case Accept(room) => (c.(room := room), Quiet)
  }

  /** The unsplit connection writes first and remembers the call only if the write succeeded. */
  function ConnectionStep(c: Conn, op: Op): (Conn, Answer) {
    if !op.Send? then Environment(c, op)
    else
      var bs := c.NextCommand(op.call).AsBytes();
      var w := c.Alloc().Write(bs);
      if c.Fits(bs) then (w.(shared := Register(w.shared, c.next, op.call)), Allocated(c.next))
      else (w, WriteFailed)
  }

  /** The writer half remembers the call first and forgets it again if the write fails. */
  function SplitStep(c: Conn, op: Op): (Conn, Answer) {
    if !op.Send? then Environment(c, op)
    else
      var bs := c.NextCommand(op.call).AsBytes();
      var w := c.Alloc().(shared := Register(c.shared, c.next, op.call)).Write(bs);
      if c.Fits(bs) then (w, Allocated(c.next))
      else (w.(shared := Unregister(w.shared, c.next, op.call)), WriteFailed)
  }

  /** The exact condition for one step: undoing a registration restores the maps unless it replaced
      an entry that was already there. */
  lemma StepsAgreeExactly(c: Conn, op: Op)
    ensures SplitStep(c, op) == ConnectionStep(c, op)
       <==> (op.Send? && c.KeyInUse(c.next, op.call) ==> c.Fits(c.NextCommand(op.call).AsBytes()))
  {
    if op.Send? {
      var (s, u) := (SplitStep(c, op).0.shared, ConnectionStep(c, op).0.shared);
      var bs := c.NextCommand(op.call).AsBytes();
      if !c.Fits(bs) {
        RegistrationUndone(c.shared, c.next, op.call);
        assert s == Unregister(Register(c.shared, c.next, op.call), c.next, op.call) && u == c.shared;
      }
    }
  }

  lemma RegistrationUndone(sh: Shared, seqnum: u32, call: Call)
    ensures Unregister(Register(sh, seqnum, call), seqnum, call) == sh
       <==> (match call
             case SubmitCall(_, _, _, _, _, _, _) => seqnum !in sh.pending
             case UnlinkCall(_) => seqnum !in sh.unlinks)
  {
    match call
    case SubmitCall(_, direction, _, _, _, _, _) =>
      if seqnum !in sh.pending {
        assert sh.pending[seqnum := direction] - {seqnum} == sh.pending;
      } else {
        assert seqnum !in sh.pending[seqnum := direction] - {seqnum};
      }
    case UnlinkCall(target) =>
      if seqnum !in sh.unlinks {
        assert sh.unlinks[seqnum := target] - {seqnum} == sh.unlinks;
      } else {
        assert seqnum !in sh.unlinks[seqnum := target] - {seqnum};
      }
  }

  lemma FreshIsKept(c: Conn, op: Op)
    requires c.Fresh() && (op.Send? ==> c.next < U32_MAX)
    ensures ConnectionStep(c, op).0.Fresh()
  {}

  // --- Whole runs, split at any point ---

  function RunConnection(c: Conn, ops: seq<Op>): (Conn, seq<Answer>)
    decreases |ops|
  {
    if ops == [] then (c, [])
    else
      var (c', a) := ConnectionStep(c, ops[0]);
      var (end, more) := RunConnection(c', ops[1..]);
      (end, [a] + more)
  }

  /** `k` operations on the unsplit connection, the rest on the halves it is split into. */
  function RunSplitAfter(k: nat, c: Conn, ops: seq<Op>): (Conn, seq<Answer>)
    decreases |ops|
  {
    if ops == [] then (c, [])
    else
      var (c', a) := if k > 0 then ConnectionStep(c, ops[0]) else SplitStep(c, ops[0]);
      var (end, more) := RunSplitAfter(if k > 0 then k - 1 else 0, c', ops[1..]);
      (end, [a] + more)
  }

  /** No send on a split half fails under a number that is still remembered. `k` operations come before
      the split. */
  ghost predicate NoClash(k: nat, c: Conn, ops: seq<Op>)
    decreases |ops|
  {
    ops == [] ||
    (&& (k == 0 && ops[0].Send? && c.KeyInUse(c.next, ops[0].call) ==> c.Fits(c.NextCommand(ops[0].call).AsBytes()))
     && NoClash(if k > 0 then k - 1 else 0, ConnectionStep(c, ops[0]).0, ops[1..]))
  }

  /** Without a clash splitting is unobservable: same bytes, same answers, same maps and counter, wherever
      the split happens and whatever the transport and the server do. */
  lemma {:induction false} SplitRefinesConnection(k: nat, c: Conn, ops: seq<Op>)
    requires NoClash(k, c, ops)
    ensures RunSplitAfter(k, c, ops) == RunConnection(c, ops)
    decreases |ops|
  {
    if ops != [] {
      StepsAgreeExactly(c, ops[0]);
      hide Environment, Command.AsBytes;
      SplitRefinesConnection(if k > 0 then k - 1 else 0, ConnectionStep(c, ops[0]).0, ops[1..]);
    }
  }

  /** And only without one: the two forms agree at every point of a run exactly when it has no clash. */
  lemma {:induction false} FormsAgreeExactly(k: nat, c: Conn, ops: seq<Op>)
    ensures (forall n | 0 <= n <= |ops| :: RunSplitAfter(k, c, ops[..n]) == RunConnection(c, ops[..n]))
       <==> NoClash(k, c, ops)
    decreases |ops|
  {
    hide ConnectionStep, SplitStep;
    if NoClash(k, c, ops) {
      forall n | 0 <= n <= |ops|
        ensures RunSplitAfter(k, c, ops[..n]) == RunConnection(c, ops[..n])
      {
        ClashFreePrefix(k, c, ops, n);
        SplitRefinesConnection(k, c, ops[..n]);
      }
    }
    if forall n | 0 <= n <= |ops| :: RunSplitAfter(k, c, ops[..n]) == RunConnection(c, ops[..n]) {
      AgreementHasNoClash(k, c, ops);
    }
  }

  lemma {:induction false} ClashFreePrefix(k: nat, c: Conn, ops: seq<Op>, n: nat)
    requires NoClash(k, c, ops) && n <= |ops|
    ensures NoClash(k, c, ops[..n])
    decreases |ops|
  {
    hide ConnectionStep, Command.AsBytes;
    if n > 0 {
      ClashFreePrefix(if k > 0 then k - 1 else 0, ConnectionStep(c, ops[0]).0, ops[1..], n - 1);
      assert ops[..n][1..] == ops[1..][..n - 1];
    }
  }

  lemma {:induction false} AgreementHasNoClash(k: nat, c: Conn, ops: seq<Op>)
    requires forall n | 0 <= n <= |ops| :: RunSplitAfter(k, c, ops[..n]) == RunConnection(c, ops[..n])
    ensures NoClash(k, c, ops)
    decreases |ops|
  {
    if ops != [] {
      FirstAgrees(k, c, ops);
      StepsAgreeExactly(c, ops[0]);
      hide ConnectionStep, SplitStep, Command.AsBytes;
      var k', c' := if k > 0 then k - 1 else 0, ConnectionStep(c, ops[0]).0;
      forall n | 0 <= n <= |ops[1..]|
        ensures RunSplitAfter(k', c', ops[1..][..n]) == RunConnection(c', ops[1..][..n])
      {
        assert ops[..n + 1][1..] == ops[1..][..n];
        assert RunSplitAfter(k, c, ops[..n + 1]) == RunConnection(c, ops[..n + 1]);
        RestAgrees(k, c, ops[..n + 1]);
      }
      AgreementHasNoClash(k', c', ops[1..]);
    }
  }

  lemma FirstAgrees(k: nat, c: Conn, ops: seq<Op>)
    requires ops != [] && RunSplitAfter(k, c, ops[..1]) == RunConnection(c, ops[..1])
    ensures k == 0 ==> SplitStep(c, ops[0]) == ConnectionStep(c, ops[0])
  {
    hide ConnectionStep, SplitStep;
    assert ops[..1][1..] == [];
    var (s, t) := (SplitStep(c, ops[0]), ConnectionStep(c, ops[0]));
    assert RunSplitAfter(0, s.0, []) == (s.0, []) && RunConnection(t.0, []) == (t.0, []);
    assert ([s.1] + [])[0] == s.1 && ([t.1] + [])[0] == t.1;
  }

  lemma RestAgrees(k: nat, c: Conn, ops: seq<Op>)
    requires ops != [] && (k == 0 ==> SplitStep(c, ops[0]) == ConnectionStep(c, ops[0]))
    requires RunSplitAfter(k, c, ops) == RunConnection(c, ops)
    ensures var k', c' := if k > 0 then k - 1 else 0, ConnectionStep(c, ops[0]).0;
            RunSplitAfter(k', c', ops[1..]) == RunConnection(c', ops[1..])
  {
    hide ConnectionStep, SplitStep;
    var k' := if k > 0 then k - 1 else 0;
    var (c', a) := ConnectionStep(c, ops[0]);
    var x, y := RunSplitAfter(k', c', ops[1..]).1, RunConnection(c', ops[1..]).1;
    assert ([a] + x)[1..] == x && ([a] + y)[1..] == y;
  }

  function Sends(ops: seq<Op>): nat {
    if ops == [] then 0 else (if ops[0].Send? then 1 else 0) + Sends(ops[1..])
  }

  /** There is no clash before the counter wraps around. */
  lemma {:induction false} NoClashBeforeWrap(k: nat, c: Conn, ops: seq<Op>)
    requires c.Fresh() && c.next + Sends(ops) <= U32_MAX
    ensures NoClash(k, c, ops) && RunConnection(c, ops).0.Fresh()
    decreases |ops|
  {
    if ops != [] {
      FreshIsKept(c, ops[0]);
      NextIsCounted(c, ops[0]);
      hide ConnectionStep, Command.AsBytes;
      NoClashBeforeWrap(if k > 0 then k - 1 else 0, ConnectionStep(c, ops[0]).0, ops[1..]);
    }
  }

  lemma NextIsCounted(c: Conn, op: Op)
    requires op.Send? ==> c.next < U32_MAX
    ensures ConnectionStep(c, op).0.next == c.next + if op.Send? then 1 else 0
  {}

  /** A reused key is where the two forms part: a failed split send forgets the older call. */
  lemma ReusedKeyIsForgotten(c: Conn, call: Call)
    requires call.SubmitCall?
    requires c == Conn(0x10002, 7, Shared(map[7 := In], map[]), [], 0, [])
    ensures ConnectionStep(c, Send(call)).0.shared.pending == map[7 := In]
    ensures SplitStep(c, Send(call)).0.shared.pending == map[]
  {
    assert c.shared.pending[7 := call.direction] - {7} == map[];
  }
}
