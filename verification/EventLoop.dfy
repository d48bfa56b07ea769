/** The event loop of the program and the handlers of control requests (usbipdevirt/src/main.rs:307-504),
    run against a world that records every call it is asked for. */
module EventLoop {
  import opened Bytes
  import opened Protocol
  import opened Wire
  import opened Commands
  import opened Descriptors
  import opened Monitor
  import opened Records
  import opened Scripts
  import BridgeSystem
  import Gadget

  /** The gadget driver and the bridge. `script` says how the next calls will turn out; when it is used up,
      calls fail. */
  class World {
    var script: seq<Outcome>
    var trace: seq<Action>
    ghost const given: seq<Outcome>

    /** The trace records what the part of the script that has been used up says. */
    ghost predicate Valid()
      reads this
    {
      Unread(given, trace) == Some(script)
    }

    /** The trace is `before` and one more action, and is judged accordingly; the script has not grown. */
    ghost predicate Did(before: seq<Action>, was: seq<Outcome>, a: Action)
      reads this
    {
      && Valid() && trace == before + [a] && Judge(trace) == Observe(Judge(before), a)
      && |script| <= |was|
    }

    constructor (script: seq<Outcome>)
      ensures Valid() && given == script && this.script == script && trace == []
    {
      this.script, trace, given := script, [], script;
    }

    method Next() returns (o: Outcome)
      modifies this`script
      ensures o == Head(old(script)) && script == Rest(old(script))
    {
      if script == [] {
        return Failure;
      }
      o := script[0];
      script := script[1..];
    }

    method Record(a: Action, ghost was: seq<Outcome>)
      requires Unread(given, trace) == Some(was) && Scripts.After(was, a) == Some(script)
      modifies this`trace
      ensures Did(old(trace), was, a)
    {
      JudgeNext(trace, a);
      UnreadNext(given, trace, a);
      trace := trace + [a];
    }

    method EventFetch() returns (event: Option<Event>)
      requires Valid()
      modifies this
      ensures Did(old(trace), old(script), if event.Some? then Fetch(event.value) else FetchFails)
      ensures event.Some? ==> |script| < |old(script)|
    {
      ghost var was := script;
      var o := Next();
      event := if o.Happened? then Some(o.event) else None;
      Record(if event.Some? then Fetch(event.value) else FetchFails, was);
    }

    method Submit(direction: Direction, setup: Setup, data: seq<byte>, length: u32) returns (urb: Option<Urb>)
      requires Valid()
      modifies this
      ensures Did(old(trace), old(script), Action.Submit(direction, setup, data, length, urb))
    {
      ghost var was := script;
      var o := Next();
      urb := if o.Answered? then Some(o.urb) else None;
      Record(Action.Submit(direction, setup, data, length, urb), was);
    }

    /** The driver stores no more than it was asked for. */
    method Ep0Read(buf: array<byte>) returns (n: Option<nat>)
      requires Valid()
      modifies this, buf
      ensures n.Some? ==> n.value <= Min(buf.Length, 512)
      ensures Did(old(trace), old(script),
                  Action.Ep0Read(buf.Length, if n.None? then None else Some(buf[..n.value])))
    {
      ghost var was := script;
      var o := Next();
      var ok := o.Stored? && |o.read.stored| <= Min(buf.Length, Gadget.EP0_BUF_SIZE);
      var read, _ := Gadget.Ep0Read(buf, if ok then Some(o.read) else None);
      n := read;
      assert n.Some? ==> buf[..n.value] == Gadget.Received(o.read, Min(buf.Length, 512));
      Record(Action.Ep0Read(buf.Length, if n.None? then None else Some(buf[..n.value])), was);
    }

    /** Replies with no data. */
    method Ep0Ack() returns (ok: bool)
      requires Valid()
      modifies this
      ensures Did(old(trace), old(script), Action.Ep0Read(0, if ok then Some([]) else None))
    {
      var buf := new byte[0];
      var n := Ep0Read(buf);
      assert n.Some? ==> buf[..n.value] == [];
      return n.Some?;
    }

    method Ep0Write(data: seq<byte>) returns (ok: bool)
      requires Valid()
      modifies this
      ensures Did(old(trace), old(script), Action.Ep0Write(data, ok))
      ensures |data| > 512 ==> !ok
    {
      ghost var was := script;
      var o := Next();
      var result, _ := Gadget.Ep0Write(data, if o.Done? then Some(|data|) else None);
      ok := result.Some?;
      Record(Action.Ep0Write(data, ok), was);
    }

    method Ep0Stall() returns (ok: bool)
      requires Valid()
      modifies this
      ensures Did(old(trace), old(script), Action.Ep0Stall(ok))
    {
      ghost var was := script;
      var o := Next();
      ok := o.Done?;
      Record(Action.Ep0Stall(ok), was);
    }

    method EpEnable(endpoint: Endpoint) returns (handle: Option<nat>)
      requires Valid()
      modifies this
      ensures Did(old(trace), old(script), Action.EpEnable(endpoint, handle))
    {
      ghost var was := script;
      var o := Next();
      handle := if o.Enabled? then Some(o.handle) else None;
      Record(Action.EpEnable(endpoint, handle), was);
    }

    method VbusDraw(power: byte) returns (ok: bool)
      requires Valid()
      modifies this
      ensures Did(old(trace), old(script), Action.VbusDraw(power, ok))
    {
      ghost var was := script;
      var o := Next();
      ok := o.Done?;
      Record(Action.VbusDraw(power, ok), was);
    }

    method Configure() returns (ok: bool)
      requires Valid()
      modifies this
      ensures Did(old(trace), old(script), Action.Configure(ok))
    {
      ghost var was := script;
      var o := Next();
      ok := o.Done?;
      Record(Action.Configure(ok), was);
    }

    /** One thread for each endpoint and its handle. */
    method SpawnEpThreads(endpoints: seq<Endpoint>, handles: seq<nat>) returns (pumps: seq<Pump>)
      requires Valid()
      modifies this`trace
      ensures pumps == Pumps(endpoints, handles) && Did(old(trace), old(script), Spawn(pumps))
      ensures |pumps| == Min(|endpoints|, |handles|)
      ensures forall i | 0 <= i < |pumps| ::
                && pumps[i].handle == handles[i] && !pumps[i].loop.Caller?
                && (pumps[i].loop.InPump? <==> endpoints[i].address >= 0x80)
                && pumps[i].loop.ep == endpoints[i].address % 0x10
                && pumps[i].loop.maxPacket == endpoints[i].maxPacketSize
    {
      pumps := [];
      var i := 0;
      while i < |endpoints| && i < |handles|
        invariant i <= Min(|endpoints|, |handles|) && |pumps| == i
        invariant forall j | 0 <= j < i :: pumps[j] == Pump(LoopOf(endpoints[j]), handles[j])
        invariant trace == old(trace)
      {
        var number, max := endpoints[i].address % 0x10, endpoints[i].maxPacketSize;
        var isIn := endpoints[i].address >= 0x80;
        var loop := if isIn then BridgeSystem.InPump(number, max) else BridgeSystem.OutPump(number, max);
        pumps := pumps + [Pump(loop, handles[i])];
        i := i + 1;
      }
      Record(Spawn(pumps), script);
    }

    method JoinAll(pumps: seq<Pump>)
      requires Valid()
      modifies this`trace
      ensures Did(old(trace), old(script), Join(pumps))
    {
      Record(Join(pumps), script);
    }
  }

  /** Nothing has been done yet about request `c`. */
  ghost predicate Untouched(m: Verdict, c: Ctrl) {
    && m.Mon? && !m.ended && !m.joining && m.stage.Quiet?
    && m.current == Some(c) && !m.replied && m.got == [] && m.answer.None?
  }

  class Program {
    const world: World
    var cachedConfig: Option<seq<byte>>
    var epThreads: seq<Pump>

    constructor (world: World)
      ensures this.world == world && cachedConfig == None && epThreads == []
    {
      this.world, cachedConfig, epThreads := world, None, [];
    }

    /** The threads in hand and the cache are what the record says. */
    ghost predicate Agrees(m: Verdict)
      reads this
    {
      m.Mon? && cachedConfig == m.config && epThreads == m.inHand
    }

    method HandleControlIn(c: Ctrl) returns (ok: bool)
      requires world.Valid()
      requires HandlingOf(c).DeviceToHost? && Untouched(Judge(world.trace), c) && Agrees(Judge(world.trace))
      modifies world, this`cachedConfig
      ensures world.Valid() && |world.script| <= |old(world.script)|
      ensures var m := Judge(world.trace);
              && Agrees(m) && m.lost == Judge(old(world.trace)).lost && ok == m.Settled() && ok != m.ended
      ensures ok ==> exists u ::
                && world.trace == old(world.trace)
                     + [Action.Submit(In, SetupOf(c), [], c.length, Some(u)),
                        if u.status == 0 then Ep0Write(u.data, true) else Ep0Stall(true)]
                && cachedConfig == if u.status == 0 && c.request == 6 && c.value / 0x100 == 2 then Some(u.data)
                                   else old(cachedConfig)
    {
      hide Judge, SetupOf, Unread;
      var urb := world.Submit(In, SetupOf(c), [], c.length);
      if urb.None? {
        return false;
      }
      if urb.value.status == 0 {
        if c.request == USB_REQ_GET_DESCRIPTOR && c.value / 0x100 == 0x02 {
          cachedConfig := Some(urb.value.data);
        }
        ok := world.Ep0Write(urb.value.data);
      } else {
        ok := world.Ep0Stall();
      }
    }

    /** The status stage is over once the data has been read, so a refusal cannot be passed on. */
    method HandleControlOutWithData(c: Ctrl) returns (ok: bool)
      requires world.Valid()
      requires HandlingOf(c).HostToDevice? && Untouched(Judge(world.trace), c) && Agrees(Judge(world.trace))
      modifies world
      ensures world.Valid() && |world.script| <= |old(world.script)|
      ensures var m := Judge(world.trace);
              && Agrees(m) && m.lost == Judge(old(world.trace)).lost && ok == m.Settled() && ok != m.ended
      ensures ok ==> exists data, u ::
                && |data| <= c.length && |data| <= 512
                && world.trace == old(world.trace)
                     + [Ep0Read(c.length, Some(data)), Action.Submit(Out, SetupOf(c), data, c.length, Some(u))]
    {
      hide Judge, SetupOf, Unread;
      var buf := new byte[c.length](_ => 0);
      var n := world.Ep0Read(buf);
      if n.None? {
        return false;
      }
      var data := buf[..n.value];
      var urb := world.Submit(Out, SetupOf(c), data, c.length);
      return urb.Some?;
    }

    method HandleControlOutNoData(c: Ctrl) returns (ok: bool)
      requires world.Valid()
      requires HandlingOf(c).NoData? && Untouched(Judge(world.trace), c) && Agrees(Judge(world.trace))
      modifies world
      ensures world.Valid() && |world.script| <= |old(world.script)|
      ensures var m := Judge(world.trace);
              && Agrees(m) && m.lost == Judge(old(world.trace)).lost && ok == m.Settled() && ok != m.ended
      ensures ok ==> exists u ::
                world.trace == old(world.trace)
                  + [Action.Submit(Out, SetupOf(c), [], 0, Some(u)),
                     if u.status == 0 then Ep0Read(0, Some([])) else Ep0Stall(true)]
    {
      hide Judge, SetupOf, Unread;
      var urb := world.Submit(Out, SetupOf(c), [], 0);
      if urb.None? {
        return false;
      }
      if urb.value.status == 0 {
        ok := world.Ep0Ack();
      } else {
        ok := world.Ep0Stall();
      }
    }

    /** Starting the endpoints replaces the threads in hand, so threads of an earlier configuration are
        lost sight of exactly when there are any. */
    method HandleSetConfiguration(c: Ctrl) returns (ok: bool)
      requires world.Valid()
      requires HandlingOf(c).Configuration? && Untouched(Judge(world.trace), c) && Agrees(Judge(world.trace))
      modifies world, this`epThreads
      ensures world.Valid() && |world.script| <= |old(world.script)|
      ensures var m, was := Judge(world.trace), Judge(old(world.trace));
              && Agrees(m) && ok == m.Settled() && (!ok ==> m.ended || NoDescriptor(m))
              && (if ok && m.answer.Some? && m.answer.value.status == 0
                  then m.lost == was.lost + was.inHand && m.config.Some? && |epThreads| == |Walk(m.config.value)|
                  else m.lost == was.lost && m.inHand == was.inHand)
    {
      hide Judge, Walk, SetupOf, Unread;
      var urb := world.Submit(Out, SetupOf(c), [], 0);
      if urb.None? {
        return false;
      }
      if urb.value.status != 0 {
        ok := world.Ep0Stall();
        return;
      }
      if cachedConfig.None? {
        return false;
      }
      ok := Activate(cachedConfig.value);
    }

    /** Enables the endpoints one after the other. */
    method EnableEndpoints(endpoints: seq<Endpoint>) returns (result: Option<seq<nat>>)
      requires world.Valid()
      requires var m := Judge(world.trace); m.Mon? && !m.ended && m.stage == Enabling(endpoints, [])
      modifies world
      ensures world.Valid() && |world.script| <= |old(world.script)|
      ensures var m, was := Judge(world.trace), Judge(old(world.trace));
              if result.Some? then |result.value| == |endpoints| && m == was.(stage := Enabling([], result.value))
              else m.Mon? && m.ended && m == was.(stage := m.stage, ended := true)
    {
      hide Judge, OnSubmit, OnReply, Unread;
      ghost var m := Judge(world.trace);
      var handles: seq<nat> := [];
      for i := 0 to |endpoints|
        invariant world.Valid() && |world.script| <= |old(world.script)|
        invariant Judge(world.trace) == m.(stage := Enabling(endpoints[i..], handles)) && |handles| == i
      {
        var handle := world.EpEnable(endpoints[i]);
        if handle.None? {
          return None;
        }
        handles := handles + [handle.value];
      }
      assert endpoints[|endpoints|..] == [];
      return Some(handles);
    }

    /** Draws the power announced, if any is, and switches the gadget to its configured state. */
    method PowerUp(config: seq<byte>) returns (ok: bool)
      requires world.Valid()
      requires var m := Judge(world.trace);
               m.Mon? && !m.ended && m.config == Some(config) && m.stage.Enabling? && m.stage.todo == []
      modifies world
      ensures world.Valid() && |world.script| <= |old(world.script)|
      ensures var m, was := Judge(world.trace), Judge(old(world.trace));
              if ok then m == was.(stage := Configured(was.stage.handles))
              else m.Mon? && m == was.(stage := m.stage, ended := true)
    {
      hide Judge, OnSubmit, OnReply, OnFetch, Unread;
      if |config| > 7 {
        ok := world.VbusDraw(config[7]);
        if !ok {
          return;
        }
      }
      ok := world.Configure();
    }

    /** Brings up the configuration that `config` describes. */
    method Activate(config: seq<byte>) returns (ok: bool)
      requires world.Valid()
      requires var m := Judge(world.trace);
               && Agrees(m) && m.config == Some(config) && !m.ended && !m.joining
               && m.stage == Enabling(Walk(config), [])
               && m.current.Some? && HandlingOf(m.current.value).Configuration? && !m.replied && m.answer.Some?
      modifies world, this`epThreads
      ensures world.Valid() && |world.script| <= |old(world.script)|
      ensures var m, was := Judge(world.trace), Judge(old(world.trace));
              && Agrees(m) && m.config == was.config && m.answer == was.answer && ok == m.Settled() && ok != m.ended
              && (if ok then m.lost == was.lost + was.inHand && |epThreads| == |Walk(config)|
                  else m.lost == was.lost && m.inHand == was.inHand)
    {
      hide Judge, Walk, SetupOf, HandlingOf, LoopOf, OnFetch, OnSubmit, Unread;
      var endpoints := ParseEndpointDescriptors(config);
      var enabled := EnableEndpoints(endpoints);
      if enabled.None? {
        return false;
      }
      var handles := enabled.value;
      ok := PowerUp(config);
      if !ok {
        return;
      }
      ok := world.Ep0Ack();
      if !ok {
        return;
      }
      epThreads := world.SpawnEpThreads(endpoints, handles);
    }

    method HandleControl(c: Ctrl) returns (ok: bool)
      requires world.Valid()
      requires Untouched(Judge(world.trace), c) && Agrees(Judge(world.trace))
      modifies world, this`cachedConfig, this`epThreads
      ensures world.Valid() && |world.script| <= |old(world.script)|
      ensures Agrees(Judge(world.trace)) && ok == Judge(world.trace).Settled()
      ensures !ok ==> Judge(world.trace).ended || NoDescriptor(Judge(world.trace))
    {
      hide Judge, SetupOf, Unread;
      if c.request == USB_REQ_SET_ADDRESS {
        ok := world.Ep0Ack();
      } else if c.request == USB_REQ_SET_CONFIGURATION && c.requestType < 0x80 && c.length == 0 {
        ok := HandleSetConfiguration(c);
      } else if c.requestType >= 0x80 {
        ok := HandleControlIn(c);
      } else if c.length > 0 {
        ok := HandleControlOutWithData(c);
      } else {
        ok := HandleControlOutNoData(c);
      }
    }

    /** On a reset or a disconnection the threads in hand are waited for; those lost sight of are not. */
    method JoinThreads()
      requires world.Valid()
      requires var m := Judge(world.trace); m.Mon? && epThreads == m.inHand && m.joining && !m.ended
      modifies world`trace, this`epThreads
      ensures world.Valid() && epThreads == [] && world.trace == old(world.trace) + [Join(old(epThreads))]
      ensures Judge(world.trace) == Judge(old(world.trace)).(inHand := [], joining := false)
    {
      world.JoinAll(epThreads);
      epThreads := [];
    }

    /** One round of the loop. */
    method Round() returns (ok: bool, ghost event: Option<Event>)
      requires world.Valid() && Agrees(Judge(world.trace)) && Judge(world.trace).Settled()
      modifies world, this
      ensures world.Valid()
      ensures var m := Judge(world.trace);
              if ok then Agrees(m) && m.Settled() && |world.script| < |old(world.script)| else Stopped(m)
      ensures !ok ==> event.None? || event.value.Control?
      ensures ok ==> event.Some?
      ensures event == Some(Reset) || event == Some(Disconnect) ==>
                && world.trace == old(world.trace) + [Fetch(event.value), Join(old(epThreads))]
                && epThreads == [] && cachedConfig == None
      ensures AsksNothing(event) ==>
                && world.trace == old(world.trace) + [Fetch(event.value)]
                && epThreads == old(epThreads) && cachedConfig == old(cachedConfig)
    {
      hide Judge, OnSubmit, OnReply, OnConfigure, Unread;
      var fetched := world.EventFetch();
      event := fetched;
      if fetched.None? {
        return false, None;
      }
      ok := true;
      match fetched.value {
        case Control(c) =>
          ok := HandleControl(c);
        case Reset =>
          JoinThreads();
          cachedConfig := None;
        case Disconnect =>
          JoinThreads();
          cachedConfig := None;
        case _ =>
      }
    }

    /** The loop goes on until a call fails or there is no descriptor to configure from. Its record is the one
        that the outside's answers allow, and in it every event has been dealt with by the time the next one
        is asked for. */
    method Run()
      requires world.Valid() && world.trace == [] && cachedConfig == None && epThreads == []
      modifies world, this
      ensures Stopped(Judge(world.trace)) && Unread(old(world.script), world.trace).Some?
      ensures forall t | Judge(t).Mon? && Unread(old(world.script), t).Some? :: t <= world.trace
      ensures forall k | 0 <= k < |world.trace| :: DealtWith(world.trace, k)
    {
      var ok := true;
      while ok
        invariant world.Valid()
        invariant if ok then Agrees(Judge(world.trace)) && Judge(world.trace).Settled() else Stopped(Judge(world.trace))
        decreases ok, |world.script|
      {
        ghost var event;
        ok, event := Round();
      }
      RunIsRecorded(old(world.script), world.trace);
    }
  }

  lemma RunIsRecorded(script: seq<Outcome>, run: seq<Action>)
    requires Stopped(Judge(run)) && Unread(script, run).Some?
    ensures forall t | Judge(t).Mon? && Unread(script, t).Some? :: t <= run
    ensures forall k | 0 <= k < |run| :: DealtWith(run, k)
  {
    hide *;
    forall t | Judge(t).Mon? && Unread(script, t).Some?
      ensures t <= run
    {
      StoppedRecordIsLongest(script, t, run);
    }
    StoppedIsJudged(Judge(run));
    forall k | 0 <= k < |run|
      ensures DealtWith(run, k)
    {
      EventsAreDealtWith(run, k);
    }
  }

  lemma StoppedIsJudged(m: Verdict)
    ensures Stopped(m) ==> m.Mon?
  {}

  /** What the bridge sends for a control transfer on endpoint 0. */
  function ControlCall(direction: Direction, setup: Setup, data: seq<byte>, length: u32): Call {
    SubmitCall(0, direction, 0, length, setup, data, 0)
  }

  /** An OUT request with data announces the length the host asked for but carries what was read, at most
      512 bytes: the server can decode it, whatever follows, exactly when the request is no longer than
      that and the driver transferred all of it. */
  lemma OutDataIsFramedExactly(seqnum: u32, devid: u32, c: Ctrl, read: Gadget.KernelRead, rest: seq<byte>)
    requires HandlingOf(c).HostToDevice? && |read.stored| <= Min(c.length, Gadget.EP0_BUF_SIZE)
    ensures var data := Gadget.Received(read, Min(c.length, 512));
            var command := Command(seqnum, devid, ControlCall(Out, SetupOf(c), data, c.length));
            DecodeCommand(command.AsBytes() + rest) == Parsed(command, rest)
            <==> c.length <= 512 && c.length <= read.transferred
  {
    var data := Gadget.Received(read, Min(c.length, Gadget.EP0_BUF_SIZE));
    CommandRoundTrip(Command(seqnum, devid, ControlCall(Out, SetupOf(c), data, c.length)), rest);
    hide DecodeCommand, Command.AsBytes, SetupOf;
  }

  /** Everything else the loop forwards is framed, whatever the host asks for. */
  lemma OtherRequestsAreFramed(trace: seq<Action>, k: nat)
    requires Judge(trace).Mon? && k < |trace| && trace[k].Submit?
    requires CurrentRequest(trace[..k]).Some? ==> !HandlingOf(CurrentRequest(trace[..k]).value).HostToDevice?
    ensures var a := trace[k]; ControlCall(a.direction, a.setup, a.data, a.length).Framed()
  {
    DataIsRelayed(trace, k);
    hide Judge, SetupOf, CurrentRequest;
  }
}
