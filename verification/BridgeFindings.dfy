/** Schedules that the bridge can follow, with a conforming server, and that leave a caller waiting: one in
    which its response is dropped, and one in which it comes after the drain. */
module BridgeFindings {
  import opened Bytes
  import opened Protocol
  import opened Wire
  import opened Commands
  import opened Responses
  import opened BridgeSystem
  import opened BridgeSafety
  import opened BridgeWire
  import opened BridgeAccount
  import opened BridgePumps
  import opened BridgeConforming
  import opened BridgeRuns
  import opened BridgeLedger

  /** A conforming run goes on. */
  lemma RunExtends(s: State, steps: seq<Step>, u: State, step: Step)
    requires Run(s, steps) == Some(u) && ConformingRun(s, steps) && Enabled(u, step) && Conforms(u, step)
    ensures Run(s, steps + [step]) == Some(Do(u, step)) && ConformingRun(s, steps + [step])
    decreases |steps|
  {
    hide Enabled, Do, Conforms;
    if steps == [] {
      assert steps + [step] == [step];
      assert [step][1..] == [];
    } else {
      assert (steps + [step])[0] == steps[0] && (steps + [step])[1..] == steps[1..] + [step];
      RunExtends(Do(s, steps[0]), steps[1..], u, step);
    }
  }

  /** An OUT submission without data, as every control request without a data stage makes. */
  const STATUS_ONLY: Call := SubmitCall(0, Out, 0, 0, NO_SETUP, [], 0)

  /** One thread has posted one submission and not yet inserted its sender. */
  ghost function JustPosted(devid: u32, inp: seq<byte>, wire: seq<byte>, served: seq<Served>, taken: nat,
                            reader: Reader, pending: map<u32, Direction>, answers: map<u32, RetSubmit>,
                            lost: set<u32>): State
  {
    var c := Command(1, devid, STATUS_ONLY);
    State(devid, 2, Some(0), Shared(pending, map[]), map[], map[], map[0 := Thread(Caller, InCall(0), [], [])],
          [CallState(0, STATUS_ONLY, Written(1))], reader, c.AsBytes(), None, inp, wire,
          map[1 := 0], [Entry(0, c)], multiset{}, answers, lost, map[], served, taken)
  }

  ghost function Before(devid: u32): State {
    JustPosted(devid, [], [], [], 0, AtHeader, map[1 := Out], map[], {})
  }

  lemma Posts(devid: u32) returns (steps: seq<Step>)
    ensures ConformingRun(Init(devid), steps)
    ensures Run(Init(devid), steps) == Some(Before(devid))
  {
    hide Command.AsBytes, Run, ConformingRun;
    var c := Command(1, devid, STATUS_ONLY);
    var s0 := Init(devid);
    var s1 := Do(s0, Spawn(0, Caller));
    var s2 := Do(s1, Begin(0, STATUS_ONLY));
    var s3 := Do(s2, LockWriter(0));
    var s4 := Do(s3, Number(0));
    var s5 := Do(s4, RegisterCall(0));
    var bs := c.AsBytes();
    assert s5.CommandOf(0) == c;
    var s6 := Do(s5, WriteSome(0, |bs|));
    assert bs[0..|bs|] == bs && [] + bs == bs;
    assert s6 == Before(devid);
    NoSteps(s0);
    RunExtends(s0, [], s0, Spawn(0, Caller));
    steps := [] + [Spawn(0, Caller)];
    RunExtends(s0, steps, s1, Begin(0, STATUS_ONLY));
    steps := steps + [Begin(0, STATUS_ONLY)];
    RunExtends(s0, steps, s2, LockWriter(0));
    steps := steps + [LockWriter(0)];
    RunExtends(s0, steps, s3, Number(0));
    steps := steps + [Number(0)];
    RunExtends(s0, steps, s4, RegisterCall(0));
    steps := steps + [RegisterCall(0)];
    RunExtends(s0, steps, s5, WriteSome(0, |bs|));
    steps := steps + [WriteSome(0, |bs|)];
  }

  lemma NoSteps(s: State)
    ensures Run(s, []) == Some(s) && ConformingRun(s, [])
  {}

  /** The answer to the command just posted. */
  function Ack(): RetSubmitHeader {
    RetSubmitHeader(USBIP_RET_SUBMIT, 1, 0, 0, 0, 0, 0, 0, 0, 0, [0, 0, 0, 0, 0, 0, 0, 0])
  }

  lemma ServerMayAck(devid: u32, steps: seq<Step>)
    requires Run(Init(devid), steps) == Some(Before(devid))
    ensures Conforms(Before(devid), ServerReply(SubmitReply(Ack(), []), Some(1)))
  {
    var s := Before(devid);
    var c := Command(1, devid, STATUS_ONLY);
    OutgoingStream(devid, steps, s);
    hide DecodeCommands, Command.AsBytes, Run;
    var view := DecodeCommands(s.sent).commands;
    assert view == [c];
    assert c in view;
  }

  const ANSWER: Served := Served(SubmitReply(Ack(), []), Some(1))
  const RET: RetSubmit := RetSubmit(1, 0, 0, [], Out)

  ghost function Sent(devid: u32): State {
    JustPosted(devid, [], ANSWER.reply.AsBytes(), [ANSWER], 0, AtHeader, map[1 := Out], map[], {})
  }

  ghost function Arrived(devid: u32): State {
    JustPosted(devid, ANSWER.reply.AsBytes(), [], [ANSWER], 0, AtHeader, map[1 := Out], map[], {})
  }

  ghost function Read(devid: u32): State {
    JustPosted(devid, [], [], [ANSWER], 1, AtLookup(Ack()), map[1 := Out], map[], {})
  }

  ghost function LookedUp(devid: u32): State {
    JustPosted(devid, [], [], [ANSWER], 1, AtDeliver(RET), map[], map[1 := RET], {})
  }

  ghost function Dropped(devid: u32): State {
    JustPosted(devid, [], [], [ANSWER], 1, AtHeader, map[], map[1 := RET], {1})
  }

  lemma OthersConform(s: State, step: Step)
    requires !step.ServerBytes? && !step.ServerReply? && !step.Begin?
    ensures Conforms(s, step)
  {}

  /** The server answers, and the reader gets as far as looking for a sender. */
  lemma Drops(devid: u32) returns (steps: seq<Step>)
    ensures ConformingRun(Init(devid), steps)
    ensures Run(Init(devid), steps) == Some(Dropped(devid))
  {
    steps := Posts(devid);
    ServerMayAck(devid, steps);
    AnswerIsSent(devid);
    AnswerArrives(devid);
    AnswerIsRead(devid);
    AnswerIsLookedUp(devid);
    AnswerIsDropped(devid);
    hide Run, ConformingRun, JustPosted, Before, Sent, Arrived, Read, LookedUp, Dropped, Do, Enabled, Conforms;
    var reply := ServerReply(ANSWER.reply, Some(1));
    RunExtends(Init(devid), steps, Before(devid), reply);
    steps := steps + [reply];
    var arrive := Arrive(|ANSWER.reply.AsBytes()|);
    OthersConform(Sent(devid), arrive);
    RunExtends(Init(devid), steps, Sent(devid), arrive);
    steps := steps + [arrive];
    OthersConform(Arrived(devid), ReadHeader);
    RunExtends(Init(devid), steps, Arrived(devid), ReadHeader);
    steps := steps + [ReadHeader];
    OthersConform(Read(devid), LookupPending);
    RunExtends(Init(devid), steps, Read(devid), LookupPending);
    steps := steps + [LookupPending];
    OthersConform(LookedUp(devid), Deliver);
    RunExtends(Init(devid), steps, LookedUp(devid), Deliver);
    steps := steps + [Deliver];
  }

  lemma AnswerIsSent(devid: u32)
    ensures var step := ServerReply(ANSWER.reply, Some(1));
            Enabled(Before(devid), step) && Do(Before(devid), step) == Sent(devid)
  {
    hide Command.AsBytes, Reply.AsBytes;
    assert [] + ANSWER.reply.AsBytes() == ANSWER.reply.AsBytes();
  }

  lemma AnswerArrives(devid: u32)
    ensures var step := Arrive(|ANSWER.reply.AsBytes()|);
            Enabled(Sent(devid), step) && Do(Sent(devid), step) == Arrived(devid)
  {
    hide Command.AsBytes, Reply.AsBytes;
    var bs := ANSWER.reply.AsBytes();
    assert [] + bs[..|bs|] == bs && bs[|bs|..] == [];
  }

  lemma AnswerIsRead(devid: u32)
    ensures Enabled(Arrived(devid), ReadHeader) && Do(Arrived(devid), ReadHeader) == Read(devid)
  {
    hide Command.AsBytes, Reply.AsBytes, AfterHeader;
    HeaderOf(ANSWER.reply, []);
    assert ANSWER.reply.AsBytes() + [] == ANSWER.reply.AsBytes();
  }

  lemma AnswerIsLookedUp(devid: u32)
    ensures Enabled(Read(devid), LookupPending) && Do(Read(devid), LookupPending) == LookedUp(devid)
  {
    hide Command.AsBytes, AfterHeader;
    var m: map<u32, Direction> := map[1 := Out];
    assert m - {1} == map[];
  }

  lemma AnswerIsDropped(devid: u32)
    ensures Enabled(LookedUp(devid), Deliver) && Do(LookedUp(devid), Deliver) == Dropped(devid)
  {
    hide Command.AsBytes, AfterHeader;
  }

  /** A conforming server's answer overtakes the caller's insertion of its sender: the response is dropped
      and the caller waits, remembered nowhere. */
  lemma AnswerCanBeLost(devid: u32) returns (steps: seq<Step>, s: State)
    ensures ConformingRun(Init(devid), steps) && Reached(devid, steps, s)
    ensures |s.calls| == 1 && s.Pc(0) == Waiting(1, false) && s.shared.pending == map[] && s.mail == map[]
    ensures 1 in s.lost && s.reader.AtHeader? && s.Incoming() == [] && 1 in Settled(s, true)
  {
    steps := Drops(devid);
    InsertsTooLate(devid);
    hide Run, ConformingRun, Init, Do, Enabled, Settled, Dropped, Conforms;
    OthersConform(Dropped(devid), Insert(0));
    RunExtends(Init(devid), steps, Dropped(devid), Insert(0));
    steps := steps + [Insert(0)];
    s := Do(Dropped(devid), Insert(0));
  }

  lemma InsertsTooLate(devid: u32)
    ensures Enabled(Dropped(devid), Insert(0))
    ensures var s := Do(Dropped(devid), Insert(0));
            && |s.calls| == 1 && s.Pc(0) == Waiting(1, false) && s.shared.pending == map[] && s.mail == map[]
            && 1 in s.lost && s.reader.AtHeader? && s.Incoming() == [] && 1 in Settled(s, true)
  {
    hide Command.AsBytes, Reply.AsBytes, AfterHeader;
    var s := Do(Dropped(devid), Insert(0));
    assert s.served[0].settles == Some(1);
    assert SettledBy(s.served, 1, 1, true);
  }

  // --- Inserting after the drain ---

  /** The socket fails, and the reader drains the empty map, before the caller inserts its sender. */
  lemma DrainsEarly(devid: u32) returns (steps: seq<Step>)
    ensures ConformingRun(Init(devid), steps)
    ensures Run(Init(devid), steps) == Some(Drained(devid, Stopped))
  {
    steps := Posts(devid);
    ReaderStops(devid);
    hide Run, ConformingRun, JustPosted, Drained, Do, Enabled, Conforms;
    OthersConform(Drained(devid, AtHeader), ReadFails);
    RunExtends(Init(devid), steps, Drained(devid, AtHeader), ReadFails);
    steps := steps + [ReadFails];
    OthersConform(Drained(devid, Stopping), BeginDrain);
    RunExtends(Init(devid), steps, Drained(devid, Stopping), BeginDrain);
    steps := steps + [BeginDrain];
    OthersConform(Drained(devid, Draining), EndDrain);
    RunExtends(Init(devid), steps, Drained(devid, Draining), EndDrain);
    steps := steps + [EndDrain];
  }

  ghost function Drained(devid: u32, reader: Reader): State {
    JustPosted(devid, [], [], [], 0, reader, map[1 := Out], map[], {})
  }

  lemma ReaderStops(devid: u32)
    ensures Before(devid) == Drained(devid, AtHeader)
    ensures Enabled(Drained(devid, AtHeader), ReadFails)
    ensures Do(Drained(devid, AtHeader), ReadFails) == Drained(devid, Stopping)
    ensures Enabled(Drained(devid, Stopping), BeginDrain)
    ensures Do(Drained(devid, Stopping), BeginDrain) == Drained(devid, Draining)
    ensures Enabled(Drained(devid, Draining), EndDrain)
    ensures Do(Drained(devid, Draining), EndDrain) == Drained(devid, Stopped)
  {
    hide Command.AsBytes;
  }

  lemma InsertsAfterDrain(devid: u32)
    ensures Enabled(Drained(devid, Stopped), Insert(0))
    ensures var s := Do(Drained(devid, Stopped), Insert(0)); |s.calls| == 1 && s.Pc(0) == Waiting(1, true)
  {
    hide Command.AsBytes;
  }

  /** A caller of a server that breaks no rule waits for ever: whatever happens from here on, it does not
      return. */
  lemma CallerWaitsForEver(devid: u32) returns (steps: seq<Step>, s: State)
    ensures ConformingRun(Init(devid), steps) && Reached(devid, steps, s)
    ensures |s.calls| == 1 && s.Pc(0) == Waiting(1, true)
    ensures forall more | Run(s, more).Some? :: 0 < |Run(s, more).value.calls| && Run(s, more).value.Pc(0) == s.Pc(0)
  {
    steps := DrainsEarly(devid);
    InsertsAfterDrain(devid);
    hide Run, ConformingRun, Init, Do, Enabled, Drained, Conforms;
    OthersConform(Drained(devid, Stopped), Insert(0));
    RunExtends(Init(devid), steps, Drained(devid, Stopped), Insert(0));
    steps := steps + [Insert(0)];
    s := Do(Drained(devid, Stopped), Insert(0));
    Reachable(devid, steps, s);
    hide Inv, WireInv, BookInv, PumpInv;
    forall more | Run(s, more).Some?
      ensures 0 < |Run(s, more).value.calls| && Run(s, more).value.Pc(0) == s.Pc(0)
    {
      TooLateWaitsForEver(s, 0, more);
    }
  }
}
