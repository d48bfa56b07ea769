/** Records that the event loop does produce and that show where it falls short. Each is in order and
    answered by a script, so by the contract of `Run` it begins the record of the run on that script. */
module Findings {
  import opened Bytes
  import opened Protocol
  import opened Commands
  import opened Descriptors
  import opened Monitor
  import opened Records
  import opened Scripts
  import opened EventLoop
  import BridgeSystem
  import Gadget

  /** A record goes on with a call that the next outcome answers. */
  lemma GoesOn(script: seq<Outcome>, trace: seq<Action>, o: Outcome, rest: seq<Outcome>, a: Action)
    requires Unread(script, trace) == Some([o] + rest) && Asks(a) && Fits(o, a)
    ensures Judge(trace + [a]) == Observe(Judge(trace), a) && Unread(script, trace + [a]) == Some(rest)
  {
    hide Fits;
    JudgeNext(trace, a);
    UnreadNext(script, trace, a);
    assert ([o] + rest)[1..] == rest;
  }

  lemma GoesOnSilently(script: seq<Outcome>, trace: seq<Action>, a: Action)
    requires Unread(script, trace).Some? && !Asks(a)
    ensures Judge(trace + [a]) == Observe(Judge(trace), a) && Unread(script, trace + [a]) == Unread(script, trace)
  {
    JudgeNext(trace, a);
    UnreadNext(script, trace, a);
  }

  // --- OUT requests with data ---

  function OutScript(c: Ctrl, read: Gadget.KernelRead, answer: Urb): seq<Outcome> {
    [Happened(Control(c))] + ([Stored(read)] + ([Answered(answer)] + []))
  }

  /** What is recorded for an OUT request with data. */
  function OutRecord(c: Ctrl, read: Gadget.KernelRead, answer: Urb): seq<Action>
    requires |read.stored| <= Min(c.length, Gadget.EP0_BUF_SIZE)
  {
    var data := Gadget.Received(read, Min(c.length, Gadget.EP0_BUF_SIZE));
    [] + [Fetch(Control(c))] + [Ep0Read(c.length, Some(data))]
    + [Action.Submit(Out, SetupOf(c), data, c.length, Some(answer))]
  }

  /** Whatever the driver transfers for whatever request of the kind, it is forwarded, and what is forwarded
      announces its length truthfully exactly when all of a request of at most 512 bytes was transferred. */
  lemma OutDataIsForwarded(c: Ctrl, read: Gadget.KernelRead, answer: Urb)
    requires HandlingOf(c).HostToDevice? && |read.stored| <= Min(c.length, Gadget.EP0_BUF_SIZE)
    ensures var trace := OutRecord(c, read, answer);
            && Judge(trace).Settled() && Unread(OutScript(c, read, answer), trace) == Some([])
            && (ControlCall(Out, trace[2].setup, trace[2].data, trace[2].length).Framed()
                <==> c.length <= 512 && c.length <= read.transferred)
  {
    hide SetupOf, Walk, Judge, Unread;
    var script, data := OutScript(c, read, answer), Gadget.Received(read, Min(c.length, Gadget.EP0_BUF_SIZE));
    Starts(script);
    GoesOn(script, [], Happened(Control(c)), [Stored(read)] + ([Answered(answer)] + []), Fetch(Control(c)));
    GoesOn(script, [] + [Fetch(Control(c))], Stored(read), [Answered(answer)] + [], Ep0Read(c.length, Some(data)));
    GoesOn(script, [] + [Fetch(Control(c))] + [Ep0Read(c.length, Some(data))], Answered(answer), [],
           Action.Submit(Out, SetupOf(c), data, c.length, Some(answer)));
  }

  lemma Starts(script: seq<Outcome>)
    ensures Judge([]) == START && Unread(script, []) == Some(script)
  {}

  /** A vendor request that writes 513 bytes. */
  const WRITE_513: Ctrl := Ctrl(0x40, 0x20, 0, 0, 513)

  /** All the driver can transfer of it. */
  const READ_512: Gadget.KernelRead := Gadget.KernelRead(Zeros(512), 512)

  /** The loop does forward a command that the server cannot decode. */
  lemma MisframedCommandIsForwarded(seqnum: u32, devid: u32, rest: seq<byte>)
    ensures var trace := OutRecord(WRITE_513, READ_512, Urb(0, []));
            var command := Command(seqnum, devid, ControlCall(Out, trace[2].setup, trace[2].data, trace[2].length));
            && Judge(trace).Settled() && Unread(OutScript(WRITE_513, READ_512, Urb(0, [])), trace) == Some([])
            && DecodeCommand(command.AsBytes() + rest) != Parsed(command, rest)
  {
    OutDataIsForwarded(WRITE_513, READ_512, Urb(0, []));
    OutDataIsFramedExactly(seqnum, devid, WRITE_513, READ_512, rest);
    hide SetupOf, Judge, Unread, OutScript, DecodeCommand, Command.AsBytes, Call.Framed;
  }

  // --- Long answers ---

  function InScript(c: Ctrl, data: seq<byte>): seq<Outcome> {
    [Happened(Control(c))] + ([Answered(Urb(0, data))] + ([Done] + []))
  }

  /** What is recorded for an IN request that the remote device answers with `data`. */
  function InRecord(c: Ctrl, data: seq<byte>): seq<Action> {
    [] + [Fetch(Control(c))] + [Action.Submit(In, SetupOf(c), [], c.length, Some(Urb(0, data)))]
    + [Ep0Write(data, |data| <= Gadget.EP0_BUF_SIZE)]
  }

  /** However ready the driver is, the remote device's answer ends the program exactly when it is longer than
      512 bytes. */
  lemma LongAnswerEndsRun(c: Ctrl, data: seq<byte>)
    requires HandlingOf(c).DeviceToHost?
    ensures var trace := InRecord(c, data);
            && Judge(trace).Mon? && Unread(InScript(c, data), trace) == Some([])
            && (Judge(trace).ended <==> |data| > 512)
            && (Judge(trace).Settled() <==> |data| <= 512)
  {
    hide SetupOf, Walk, Judge, Unread;
    var script := InScript(c, data);
    var submit := Action.Submit(In, SetupOf(c), [], c.length, Some(Urb(0, data)));
    Starts(script);
    GoesOn(script, [], Happened(Control(c)), [Answered(Urb(0, data))] + ([Done] + []), Fetch(Control(c)));
    GoesOn(script, [] + [Fetch(Control(c))], Answered(Urb(0, data)), [Done] + [], submit);
    GoesOn(script, [] + [Fetch(Control(c))] + [submit], Done, [], Ep0Write(data, |data| <= Gadget.EP0_BUF_SIZE));
  }

  // --- A second SET_CONFIGURATION ---

  /** A descriptor with one endpoint: IN, number 1, 8 bytes. */
  const CONFIG: seq<byte> := [7, 5, 0x81, 3, 8, 0, 1]
  const ENDPOINT: Endpoint := Endpoint(7, 5, 0x81, 3, 8, 1, 0, 0)
  const GET_CONFIG: Ctrl := Ctrl(0x80, USB_REQ_GET_DESCRIPTOR, 0x200, 0, 7)
  const SET_CONFIG: Ctrl := Ctrl(0x00, USB_REQ_SET_CONFIGURATION, 1, 0, 0)
  const NO_DATA: Gadget.KernelRead := Gadget.KernelRead([], 0)

  lemma WalkOfConfig()
    ensures Walk(CONFIG) == [ENDPOINT]
  {
    assert CONFIG[..7] == CONFIG && CONFIG[7..] == [];
    assert Walk([]) == [];
  }

  function Threads(handle: nat): seq<Pump> {
    [Pump(BridgeSystem.InPump(1, 8), handle)]
  }

  function Configuring(handle: nat, rest: seq<Outcome>): seq<Outcome> {
    [Happened(Control(SET_CONFIG))] + ([Answered(Urb(0, []))]
      + ([Enabled(handle)] + ([Done] + ([Stored(NO_DATA)] + rest))))
  }

  /** SET_CONFIGURATION is accepted, over whatever is running. */
  lemma AcceptsConfig(script: seq<Outcome>, trace: seq<Action>, rest: seq<Outcome>) returns (t: seq<Action>)
    requires Judge(trace).Settled() && Judge(trace).config == Some(CONFIG)
    requires Unread(script, trace) == Some([Happened(Control(SET_CONFIG))] + ([Answered(Urb(0, []))] + rest))
    ensures var was := Judge(trace);
            Judge(t) == was.(current := Some(SET_CONFIG), replied := false, got := [], answer := Some(Urb(0, [])),
                             stage := Enabling([ENDPOINT], []))
    ensures Unread(script, t) == Some(rest)
  {
    hide SetupOf, Walk, Judge, Unread;
    WalkOfConfig();
    var submit := Action.Submit(Out, SetupOf(SET_CONFIG), [], 0, Some(Urb(0, [])));
    GoesOn(script, trace, Happened(Control(SET_CONFIG)), [Answered(Urb(0, []))] + rest, Fetch(Control(SET_CONFIG)));
    t := trace + [Fetch(Control(SET_CONFIG))];
    GoesOn(script, t, Answered(Urb(0, [])), rest, submit);
    t := t + [submit];
  }

  /** The calls that bring the configuration up, and what they leave. */
  lemma BringsUp(m: Verdict, handle: nat)
    requires m.Mon? && !m.ended && m.stage == Enabling([ENDPOINT], []) && m.config == Some(CONFIG)
    requires m.current == Some(SET_CONFIG) && !m.replied && m.got == []
    ensures var enabled := Observe(m, EpEnable(ENDPOINT, Some(handle)));
            var configured := Observe(enabled, Action.Configure(true));
            var acked := Observe(configured, Ep0Read(0, Some([])));
            Observe(acked, Spawn(Threads(handle)))
            == m.(stage := Quiet, replied := true, lost := m.lost + m.inHand, inHand := Threads(handle))
  {
    WalkOfConfig();
    PumpsOfConfig(handle);
    hide SetupOf, Walk, OnSubmit, OnFetch, Pumps, Threads;
    assert [ENDPOINT][1..] == [] && [] + [handle] == [handle];
  }

  /** A configuration is brought up. */
  lemma Configures(script: seq<Outcome>, trace: seq<Action>, handle: nat, rest: seq<Outcome>) returns (t: seq<Action>)
    requires Judge(trace).Settled() && Judge(trace).config == Some(CONFIG)
    requires Unread(script, trace) == Some(Configuring(handle, rest))
    ensures var m, was := Judge(t), Judge(trace);
            m.Settled() && m.config == was.config && m.lost == was.lost + was.inHand && m.inHand == Threads(handle)
    ensures Unread(script, t) == Some(rest)
  {
    hide Judge, Unread, Observe;
    var r4 := [Stored(NO_DATA)] + rest;
    var r3 := [Done] + r4;
    t := AcceptsConfig(script, trace, [Enabled(handle)] + r3);
    BringsUp(Judge(t), handle);
    GoesOn(script, t, Enabled(handle), r3, EpEnable(ENDPOINT, Some(handle)));
    t := t + [EpEnable(ENDPOINT, Some(handle))];
    GoesOn(script, t, Done, r4, Action.Configure(true));
    t := t + [Action.Configure(true)];
    GoesOn(script, t, Stored(NO_DATA), rest, Ep0Read(0, Some([])));
    t := t + [Ep0Read(0, Some([]))];
    GoesOnSilently(script, t, Spawn(Threads(handle)));
    t := t + [Spawn(Threads(handle))];
  }

  lemma PumpsOfConfig(handle: nat)
    ensures Pumps([ENDPOINT], [handle]) == Threads(handle)
  {}

  /** A descriptor is read, SET_CONFIGURATION is accepted twice, the bus is reset. */
  function TwiceScript(): seq<Outcome> {
    [Happened(Control(GET_CONFIG))] + ([Answered(Urb(0, CONFIG))] + ([Done]
      + Configuring(1, Configuring(2, [Happened(Reset)] + []))))
  }

  /** The thread of the first configuration is never waited for. */
  lemma FirstThreadsAreLost() returns (trace: seq<Action>)
    ensures Judge(trace).Settled() && Unread(TwiceScript(), trace) == Some([])
    ensures |trace| > 0 && trace[|trace| - 1] == Join(Threads(2)) && !AllJoined(trace)
    ensures Judge(trace).lost == Threads(1)
  {
    hide SetupOf, Walk, Judge, Unread;
    var script := TwiceScript();
    var r3 := Configuring(1, Configuring(2, [Happened(Reset)] + []));
    Starts(script);
    var r1 := [Answered(Urb(0, CONFIG))] + ([Done] + r3);
    GoesOn(script, [], Happened(Control(GET_CONFIG)), r1, Fetch(Control(GET_CONFIG)));
    trace := [] + [Fetch(Control(GET_CONFIG))];
    var submit := Action.Submit(In, SetupOf(GET_CONFIG), [], 7, Some(Urb(0, CONFIG)));
    GoesOn(script, trace, Answered(Urb(0, CONFIG)), [Done] + r3, submit);
    trace := trace + [submit];
    GoesOn(script, trace, Done, r3, Ep0Write(CONFIG, true));
    trace := trace + [Ep0Write(CONFIG, true)];
    trace := Configures(script, trace, 1, Configuring(2, [Happened(Reset)] + []));
    trace := Configures(script, trace, 2, [Happened(Reset)] + []);
    GoesOn(script, trace, Happened(Reset), [], Fetch(Reset));
    trace := trace + [Fetch(Reset)];
    GoesOnSilently(script, trace, Join(Threads(2)));
    trace := trace + [Join(Threads(2))];
    VerdictExplainsThreads(trace);
    LostExactly(Judge(trace), trace);
  }

  // --- Running the loop on the scripts ---

  /** A join in the record of this run leaves a thread that was started and never waited for. */
  method SetConfigurationTwice() returns (world: World, ghost k: nat)
    ensures k < |world.trace| && world.trace[k].Join? && !AllJoined(world.trace[..k + 1])
  {
    hide Judge, Unread, Observe, AllJoined;
    world := new World(TwiceScript());
    Starts(TwiceScript());
    var program := new Program(world);
    program.Run();
    ghost var t := FirstThreadsAreLost();
    k := |t| - 1;
    assert t <= world.trace && world.trace[..k + 1] == t;
  }

  /** A command in the record of this run announces more data than it carries. */
  method WriteMoreThanFits() returns (world: World)
    ensures |world.trace| > 2 && world.trace[2].Submit?
    ensures var a := world.trace[2]; !ControlCall(a.direction, a.setup, a.data, a.length).Framed()
  {
    hide Judge, Unread, Observe, SetupOf;
    var script := OutScript(WRITE_513, READ_512, Urb(0, []));
    world := new World(script);
    Starts(script);
    var program := new Program(world);
    program.Run();
    OutDataIsForwarded(WRITE_513, READ_512, Urb(0, []));
    assert OutRecord(WRITE_513, READ_512, Urb(0, [])) <= world.trace;
  }

  /** A vendor request that reads 513 bytes. */
  const READ_513: Ctrl := Ctrl(0xc0, 0x20, 0, 0, 513)

  /** The whole record of this run is one request, and its answer ends the program. */
  method AnswerWithMoreThanFits() returns (world: World)
    ensures world.trace == InRecord(READ_513, Zeros(513))
    ensures Judge(world.trace).Mon? && Judge(world.trace).ended
  {
    hide Judge, Unread, Observe, SetupOf;
    var script := InScript(READ_513, Zeros(513));
    world := new World(script);
    Starts(script);
    var program := new Program(world);
    program.Run();
    LongAnswerEndsRun(READ_513, Zeros(513));
    EndedIsWhole(InRecord(READ_513, Zeros(513)), world.trace);
  }
}
