/** What the event loop does to the gadget and to the remote device, as a trace of actions, and a monitor
    that says which traces are proper: one EP0 reply per control request, and the order in which a device
    is configured (USB 2.0, sections 9.3, 9.4.6 and 9.4.7). */
module Monitor {
  import opened Bytes
  import opened Protocol
  import opened Wire
  import opened Descriptors
  import BridgeSystem

  datatype Ctrl = Ctrl(requestType: byte, request: byte, value: u16, index: u16, length: u16)

  const USB_REQ_SET_ADDRESS: byte := 0x05
  const USB_REQ_GET_DESCRIPTOR: byte := 0x06
  const USB_REQ_SET_CONFIGURATION: byte := 0x09
  const USB_DT_CONFIG: byte := 0x02

  /** The eight setup bytes forwarded to the remote device. */
  function SetupOf(c: Ctrl): Setup {
    [c.requestType, c.request] + Le16(c.value) + Le16(c.index) + Le16(c.length)
  }

  function CtrlOf(setup: Setup): Ctrl {
    Ctrl(setup[0], setup[1], U16LeAt(setup, 2), U16LeAt(setup, 4), U16LeAt(setup, 6))
  }

  /** Nothing of a request is lost on the way to the remote device, and every setup packet is some request's. */
  lemma SetupRoundTrip(c: Ctrl, setup: Setup)
    ensures CtrlOf(SetupOf(c)) == c
    ensures SetupOf(CtrlOf(setup)) == setup
  {
    var s := SetupOf(c);
    assert s[2] == Le16(c.value)[0] && s[3] == Le16(c.value)[1] && s[4] == Le16(c.index)[0];
    assert s[5] == Le16(c.index)[1] && s[6] == Le16(c.length)[0] && s[7] == Le16(c.length)[1];
    Le16Inverse(setup[2], setup[3]);
    Le16Inverse(setup[4], setup[5]);
    Le16Inverse(setup[6], setup[7]);
  }

  /** The setup packet byte by byte; its words have the low byte first. */
  lemma SetupLayout(c: Ctrl)
    ensures SetupOf(c) == [c.requestType, c.request, c.value % 0x100, c.value / 0x100,
                           c.index % 0x100, c.index / 0x100, c.length % 0x100, c.length / 0x100]
  {}

  lemma Le16Inverse(lo: byte, hi: byte)
    ensures Le16(U16LeAt([lo, hi], 0)) == [lo, hi]
  {
    var l: int, h: int := lo, hi;
    assert (l + h * 0x100) / 0x100 == h && (l + h * 0x100) % 0x100 == l;
  }

  // --- How requests are told apart ---

  datatype Handling = Address | Configuration | DeviceToHost | HostToDevice | NoData

  function HandlingOf(c: Ctrl): Handling {
    if c.request == USB_REQ_SET_ADDRESS then Address
    else if c.request == USB_REQ_SET_CONFIGURATION && c.requestType < 0x80 && c.length == 0 then Configuration
    else if c.requestType >= 0x80 then DeviceToHost
    else if c.length > 0 then HostToDevice
    else NoData
  }

  predicate AsksForConfig(c: Ctrl) {
    HandlingOf(c).DeviceToHost? && c.request == USB_REQ_GET_DESCRIPTOR && c.value / 0x100 == USB_DT_CONFIG
  }

  /** Every request is of one kind, which the setup bytes tell. Bit 7 of the first is the direction, the second is
      the request code, the last two are the length of the data. */
  lemma HandlingBySetup(c: Ctrl)
    ensures var s := SetupOf(c);
            && (HandlingOf(c).Address? <==> s[1] == 0x05)
            && (HandlingOf(c).Configuration? <==> s[1] == 0x09 && s[0] < 0x80 && s[6..] == [0, 0])
            && (HandlingOf(c).DeviceToHost? <==> s[1] != 0x05 && s[0] >= 0x80)
            && (HandlingOf(c).HostToDevice? <==> s[1] != 0x05 && s[0] < 0x80 && s[6..] != [0, 0])
            && (HandlingOf(c).NoData? <==> s[1] != 0x05 && s[1] != 0x09 && s[0] < 0x80 && s[6..] == [0, 0])
            && (AsksForConfig(c) <==> s[0] >= 0x80 && s[1] == 0x06 && s[3] == 0x02)
  {
    SetupLayout(c);
    var s := SetupOf(c);
    assert s[6..] == [s[6], s[7]];
    assert c.length == 0 <==> c.length % 0x100 == 0 && c.length / 0x100 == 0;
  }

  // --- Traces ---

  datatype Event = Connect | Control(ctrl: Ctrl) | Suspend | Resume | Reset | Disconnect | Unknown(ty: u32)

  datatype Urb = Urb(status: i32, data: seq<byte>)

  /** An endpoint thread: the loop it runs against the bridge, and the gadget endpoint it serves. */
  datatype Pump = Pump(loop: BridgeSystem.Kind, handle: nat)

  function LoopOf(e: Endpoint): BridgeSystem.Kind {
    if e.IsIn() then BridgeSystem.InPump(e.Number(), e.maxPacketSize)
    else BridgeSystem.OutPump(e.Number(), e.maxPacketSize)
  }

  /** One call, with its arguments and what came back; `ok` is false for a call that returned an error. */
  datatype Action =
    | Fetch(event: Event)
    | FetchFails
    | Submit(direction: Direction, setup: Setup, data: seq<byte>, length: u32, urb: Option<Urb>)
    | Ep0Read(count: nat, got: Option<seq<byte>>)
    | Ep0Write(data: seq<byte>, ok: bool)
    | Ep0Stall(ok: bool)
    | EpEnable(endpoint: Endpoint, handle: Option<nat>)
    | VbusDraw(power: byte, ok: bool)
    | Configure(ok: bool)
    | Spawn(pumps: seq<Pump>)
    | Join(pumps: seq<Pump>)
  {
    predicate IsEp0() { Ep0Read? || Ep0Write? || Ep0Stall? }

    /** After a failed call the program ends. */
    predicate Fails() {
      match this
      case FetchFails => true
      case Submit(_, _, _, _, urb) => urb.None?
      case Ep0Read(_, got) => got.None?
      case Ep0Write(_, ok) => !ok
      case Ep0Stall(ok) => !ok
      case EpEnable(_, handle) => handle.None?
      case VbusDraw(_, ok) => !ok
      case Configure(ok) => !ok
      case _ => false
    }
  }

  // --- The monitor ---

  /** How far the configuration asked for by the current request has got. */
  datatype Stage =
    | Quiet
    | Enabling(todo: seq<Endpoint>, handles: seq<nat>)
    | Powered(handles: seq<nat>)
    | Configured(handles: seq<nat>)
    | Acked(handles: seq<nat>)

  /** `config` is the configuration descriptor last read since the last reset, `current` the request being
      handled, `got` the data read for it, `answer` what the remote device said. `inHand` are the endpoint
      threads started last and `lost` those of earlier configurations that were never waited for;
      `joining` says that the threads in hand have to be waited for before the next event. */
  datatype Verdict = Bad | Mon(
    config: Option<seq<byte>>, current: Option<Ctrl>, replied: bool, got: seq<byte>, answer: Option<Urb>,
    stage: Stage, lost: seq<Pump>, inHand: seq<Pump>, joining: bool, ended: bool)
  {
    /** The current event has been dealt with. */
    predicate Settled() {
      && Mon? && !ended && !joining && stage.Quiet?
      && (current.Some? ==> replied && (HandlingOf(current.value).Address? || answer.Some?))
    }
  }

  /** SET_CONFIGURATION was accepted, but there is no descriptor to take the endpoints from. */
  predicate NoDescriptor(m: Verdict) {
    && m.Mon? && m.config.None? && !m.replied && m.current.Some? && HandlingOf(m.current.value).Configuration?
    && m.answer.Some? && m.answer.value.status == 0
  }

  /** The program returns with an error. */
  predicate Stopped(m: Verdict) {
    m.Mon? && (m.ended || NoDescriptor(m))
  }

  predicate Ends(e: Event) {
    e.Reset? || e.Disconnect?
  }

  const START: Verdict := Mon(None, None, false, [], None, Quiet, [], [], false, false)

  function OnFetch(m: Verdict, e: Event): Verdict
    requires m.Mon?
  {
    if !m.Settled() then Bad
    else
      m.(current := RequestOf(e), replied := false, got := [], answer := None,
         config := if Ends(e) then None else m.config, joining := Ends(e))
  }

  /** The request is forwarded once, under its own setup bytes and length; OUT data is what was read for it. */
  function OnSubmit(m: Verdict, a: Action): Verdict
    requires m.Mon? && a.Submit?
  {
    if m.current.None? || m.answer.Some? || !m.stage.Quiet? || HandlingOf(m.current.value).Address? then Bad
    else
      var c := m.current.value;
      var toHost := HandlingOf(c).DeviceToHost?;
      if a.setup != SetupOf(c) || a.length != c.length || a.direction.In? != toHost || a.data != m.got
         || m.replied != HandlingOf(c).HostToDevice? then Bad
      else if a.urb.None? then m.(ended := true)
      else
        var config := if AsksForConfig(c) && a.urb.value.status == 0 then Some(a.urb.value.data) else m.config;
        var accepted := HandlingOf(c).Configuration? && a.urb.value.status == 0 && m.config.Some?;
        m.(answer := a.urb, config := config,
           stage := if accepted then Enabling(Walk(m.config.value), []) else Quiet)
  }

  /** When the current request may be replied to, and how. */
  predicate MayReply(m: Verdict, a: Action)
    requires m.Mon? && a.IsEp0()
  {
    m.current.Some? && !m.replied &&
    var c := m.current.value;
    match a
    case Ep0Read(n, _) =>
      (match HandlingOf(c)
       case Address => n == 0
       case HostToDevice => n == c.length && m.answer.None?
       case NoData => n == 0 && m.answer.Some? && m.answer.value.status == 0
       case Configuration => n == 0 && m.stage.Configured?
       case DeviceToHost => false)
    case Ep0Write(data, _) => HandlingOf(c).DeviceToHost? && m.answer == Some(Urb(0, data))
    case Ep0Stall(_) => !HandlingOf(c).HostToDevice? && m.answer.Some? && m.answer.value.status != 0
  }

  function OnReply(m: Verdict, a: Action): Verdict
    requires m.Mon? && a.IsEp0()
  {
    if !MayReply(m, a) then Bad
    else
      m.(replied := true, ended := a.Fails(),
         got := if a.Ep0Read? && a.got.Some? then a.got.value else m.got,
         stage := if m.stage.Configured? then Acked(m.stage.handles) else m.stage)
  }

  function OnConfigure(m: Verdict, a: Action): Verdict
    requires m.Mon?
  {
    match a
    case EpEnable(e, handle) =>
      if !m.stage.Enabling? || m.stage.todo == [] || m.stage.todo[0] != e then Bad
      else if handle.None? then m.(ended := true)
      else m.(stage := Enabling(m.stage.todo[1..], m.stage.handles + [handle.value]))
    case VbusDraw(power, ok) =>
      if !m.stage.Enabling? || m.stage.todo != [] || m.config.None? || |m.config.value| <= 7
         || m.config.value[7] != power then Bad
      else m.(stage := Powered(m.stage.handles), ended := !ok)
    case Configure(ok) =>
      if m.stage.Powered? || (m.stage.Enabling? && m.stage.todo == [] && m.config.Some? && |m.config.value| <= 7) then
        m.(stage := Configured(m.stage.handles), ended := !ok)
      else Bad
    case Spawn(ps) =>
      if m.stage.Acked? && m.config.Some? && ps == Pumps(Walk(m.config.value), m.stage.handles) then
        m.(stage := Quiet, lost := m.lost + m.inHand, inHand := ps)
      else Bad
    case Join(ps) => if m.joining && ps == m.inHand then m.(inHand := [], joining := false) else Bad
    case _ => Bad
  }

  /** One endpoint thread for each descriptor that has a handle. */
  function Pumps(eps: seq<Endpoint>, handles: seq<nat>): (ps: seq<Pump>)
    ensures |ps| == Min(|eps|, |handles|)
    ensures forall i | 0 <= i < |ps| :: ps[i] == Pump(LoopOf(eps[i]), handles[i])
  {
    seq(Min(|eps|, |handles|), i requires 0 <= i < Min(|eps|, |handles|) => Pump(LoopOf(eps[i]), handles[i]))
  }

  function Observe(m: Verdict, a: Action): Verdict {
    if m.Bad? || m.ended then Bad
    else if a.Fetch? then OnFetch(m, a.event)
    else if a.FetchFails? then if m.Settled() then m.(ended := true) else Bad
    else if a.Submit? then OnSubmit(m, a)
    else if a.IsEp0() then OnReply(m, a)
    else OnConfigure(m, a)
  }

  function Judge(trace: seq<Action>): Verdict {
    if trace == [] then START else Observe(Judge(trace[..|trace| - 1]), trace[|trace| - 1])
  }

  lemma JudgeNext(trace: seq<Action>, a: Action)
    ensures Judge(trace + [a]) == Observe(Judge(trace), a)
  {
    assert (trace + [a])[..|trace|] == trace;
  }

  // --- What an accepted trace means ---

  /** The actions after the last event was fetched. */
  function SinceFetch(trace: seq<Action>): seq<Action> {
    if trace == [] || trace[|trace| - 1].Fetch? then []
    else SinceFetch(trace[..|trace| - 1]) + [trace[|trace| - 1]]
  }

  function Replies(actions: seq<Action>): nat {
    if actions == [] then 0
    else Replies(actions[..|actions| - 1]) + if actions[|actions| - 1].IsEp0() then 1 else 0
  }

  function RequestOf(e: Event): Option<Ctrl> {
    if e.Control? then Some(e.ctrl) else None
  }

  /** The request last fetched, if the last event was one. */
  function CurrentRequest(trace: seq<Action>): Option<Ctrl> {
    if trace == [] then None
    else
      var a := trace[|trace| - 1];
      if a.Fetch? then RequestOf(a.event) else CurrentRequest(trace[..|trace| - 1])
  }

  /** The latest configuration descriptor after action `a`: the remote device's successful reply to a
      request for one replaces it, a bus reset or a disconnection forgets it. */
  function ConfigAfter(current: Option<Ctrl>, config: Option<seq<byte>>, a: Action): Option<seq<byte>> {
    if a.Fetch? && Ends(a.event) then None
    else if a.Submit? && a.urb.Some? && a.urb.value.status == 0 && current.Some? && AsksForConfig(current.value) then
      Some(a.urb.value.data)
    else config
  }

  function LatestConfig(trace: seq<Action>): Option<seq<byte>> {
    if trace == [] then None
    else
      var before := trace[..|trace| - 1];
      ConfigAfter(CurrentRequest(before), LatestConfig(before), trace[|trace| - 1])
  }

  function Enables(eps: seq<Endpoint>, handles: seq<nat>): (actions: seq<Action>)
    requires |eps| == |handles|
    ensures |actions| == |eps|
    ensures forall i | 0 <= i < |eps| :: actions[i] == EpEnable(eps[i], Some(handles[i]))
  {
    seq(|eps|, i requires 0 <= i < |eps| => EpEnable(eps[i], Some(handles[i])))
  }

  /** The bus power announced in the descriptor, if it is long enough to announce any. */
  function Draw(config: seq<byte>): seq<Action> {
    if |config| > 7 then [VbusDraw(config[7], true)] else []
  }

  /** The remote device's acceptance of SET_CONFIGURATION. */
  ghost predicate Accepts(a: Action, c: Ctrl) {
    && HandlingOf(c).Configuration? && a.Submit? && a.direction.Out? && a.setup == SetupOf(c) && a.data == []
    && a.urb.Some? && a.urb.value.status == 0
  }

  ghost predicate Acknowledges(a: Action) {
    a.Ep0Read? && a.count == 0 && a.got.Some?
  }

  /** What has been done since the fetch when the configuration has got as far as `stage`: first the
      acceptance, then the endpoints in order, then the bus power, then the state change, then the reply. */
  ghost predicate Progress(done: seq<Action>, c: Ctrl, config: seq<byte>, stage: Stage)
    requires !stage.Quiet?
  {
    var eps, n := Walk(config), |stage.handles|;
    && n <= |eps| && |done| > 0 && Accepts(done[0], c)
    && match stage
       case Enabling(todo, hs) => todo == eps[n..] && done[1..] == Enables(eps[..n], hs)
       case Powered(hs) => n == |eps| && |config| > 7 && done[1..] == Enables(eps, hs) + Draw(config)
       case Configured(hs) => n == |eps| && done[1..] == Enables(eps, hs) + Draw(config) + [Configure(true)]
       case Acked(hs) =>
         n == |eps| && exists ack ::
           Acknowledges(ack) && done[1..] == Enables(eps, hs) + Draw(config) + [Configure(true), ack]
  }

  /** The forwarding of a request to the remote device. */
  ghost predicate Forwards(a: Action, c: Ctrl) {
    && a.Submit? && a.setup == SetupOf(c) && a.length == c.length && a.direction.In? == HandlingOf(c).DeviceToHost?
    && !HandlingOf(c).Address?
  }

  ghost predicate ForwardedIn(done: seq<Action>, c: Ctrl, answer: Urb) {
    exists i | 0 <= i < |done| :: Forwards(done[i], c) && done[i].urb == Some(answer)
  }

  ghost predicate ReadIn(done: seq<Action>, got: seq<byte>) {
    exists i | 0 <= i < |done| :: done[i].Ep0Read? && done[i].got == Some(got)
  }

  /** What the verdict remembers of the current request did happen. */
  ghost predicate Witnessed(m: Verdict, done: seq<Action>)
    requires m.Mon?
  {
    && (m.answer.Some? ==> m.current.Some? && ForwardedIn(done, m.current.value, m.answer.value))
    && (m.current.Some? && HandlingOf(m.current.value).HostToDevice? && m.replied && !m.ended ==> ReadIn(done, m.got))
  }

  lemma WitnessedAppend(m: Verdict, done: seq<Action>, a: Action)
    requires m.Mon? && Witnessed(m, done)
    ensures Witnessed(m, done + [a])
  {
    var more := done + [a];
    if m.answer.Some? {
      var i :| 0 <= i < |done| && Forwards(done[i], m.current.value) && done[i].urb == m.answer;
      assert more[i] == done[i];
    }
    if m.current.Some? && HandlingOf(m.current.value).HostToDevice? && m.replied && !m.ended {
      var i :| 0 <= i < |done| && done[i].Ep0Read? && done[i].got == Some(m.got);
      assert more[i] == done[i];
    }
  }

  /** What an undecided verdict says: `current` is the request last fetched, `config` the latest
      configuration descriptor and `done` what was done since the fetch. */
  ghost predicate Explains(m: Verdict, current: Option<Ctrl>, config: Option<seq<byte>>, done: seq<Action>)
    requires m.Mon?
  {
    && m.current == current && m.config == config && Witnessed(m, done) && Replies(done) == (if m.replied then 1 else 0)
    && (m.current.None? ==> !m.replied && m.stage.Quiet?) && (m.joining ==> m.current.None?)
    && (!m.stage.Quiet? ==> m.answer.Some? && m.answer.value.status == 0)
    && (m.answer.None? && !m.replied ==> m.got == [])
    && (m.current.Some? && m.answer.None? && !m.replied && !m.ended ==> done == [])
    && (!m.stage.Quiet? && !m.ended ==>
          && m.config.Some? && HandlingOf(m.current.value).Configuration? && m.replied == m.stage.Acked?
          && Progress(done, m.current.value, m.config.value, m.stage))
  }

  ghost predicate ExplainsTrace(m: Verdict, trace: seq<Action>)
    requires m.Mon?
  {
    Explains(m, CurrentRequest(trace), LatestConfig(trace), SinceFetch(trace))
  }

  lemma {:induction false} VerdictExplains(trace: seq<Action>)
    requires Judge(trace).Mon?
    ensures ExplainsTrace(Judge(trace), trace)
  {
    if trace != [] {
      var before, a := trace[..|trace| - 1], trace[|trace| - 1];
      assert trace == before + [a];
      VerdictExplains(before);
      hide Judge, Observe, ExplainsTrace;
      JudgeNext(before, a);
      ObserveExplains(Judge(before), before, a);
    }
  }

  /** How one more action changes what the trace says. */
  lemma HistoryNext(before: seq<Action>, a: Action)
    ensures CurrentRequest(before + [a]) == if a.Fetch? then RequestOf(a.event) else CurrentRequest(before)
    ensures LatestConfig(before + [a]) == ConfigAfter(CurrentRequest(before), LatestConfig(before), a)
    ensures SinceFetch(before + [a]) == if a.Fetch? then [] else SinceFetch(before) + [a]
    ensures Replies(SinceFetch(before) + [a]) == Replies(SinceFetch(before)) + if a.IsEp0() then 1 else 0
  {
    assert (before + [a])[..|before|] == before;
    var done := SinceFetch(before);
    assert (done + [a])[..|done|] == done;
  }

  lemma FetchExplains(m: Verdict, current: Option<Ctrl>, config: Option<seq<byte>>, done: seq<Action>, a: Action)
    requires m.Mon? && Explains(m, current, config, done) && a.Fetch? && OnFetch(m, a.event).Mon?
    ensures Explains(OnFetch(m, a.event), RequestOf(a.event), ConfigAfter(current, config, a), [])
  {}

  lemma EndExplains(m: Verdict, done: seq<Action>, a: Action)
    requires m.Mon? && Explains(m, m.current, m.config, done) && m.Settled()
    requires Replies(done + [a]) == Replies(done)
    ensures Explains(m.(ended := true), m.current, m.config, done + [a])
  {
    WitnessedAppend(m, done, a);
    hide Replies, Progress, Forwards;
  }

  lemma SubmitExplains(m: Verdict, done: seq<Action>, a: Action)
    requires m.Mon? && Explains(m, m.current, m.config, done) && !m.ended && a.Submit? && OnSubmit(m, a).Mon?
    requires Replies(done + [a]) == Replies(done)
    ensures Explains(OnSubmit(m, a), m.current, ConfigAfter(m.current, m.config, a), done + [a])
  {
    WitnessedAppend(m, done, a);
    hide Walk, SetupOf, Replies;
    var u := OnSubmit(m, a);
    assert (done + [a])[|done|] == a;
    assert u.answer.Some? ==> ForwardedIn(done + [a], m.current.value, u.answer.value);
    if u.stage.Enabling? {
      assert u.stage == Enabling(Walk(m.config.value), []) && u.config == m.config;
      assert (done + [a])[1..] == [] == Enables(Walk(m.config.value)[..0], []);
    }
  }

  lemma ReplyExplains(m: Verdict, done: seq<Action>, a: Action)
    requires m.Mon? && Explains(m, m.current, m.config, done) && !m.ended && a.IsEp0() && OnReply(m, a).Mon?
    requires Replies(done + [a]) == Replies(done) + 1
    ensures Explains(OnReply(m, a), m.current, m.config, done + [a])
  {
    WitnessedAppend(m, done, a);
    hide Walk, Accepts, Replies, Forwards;
    var u := OnReply(m, a);
    assert (done + [a])[|done|] == a;
    if u.stage.Acked? && !u.ended {
      var c := m.config.value;
      assert Acknowledges(a);
      assert (done + [a])[1..] == done[1..] + [a];
      assert [Configure(true)] + [a] == [Configure(true), a];
      Associative(Enables(Walk(c), m.stage.handles) + Draw(c), [Configure(true)], [a]);
    }
  }

  lemma ConfigureExplains(m: Verdict, done: seq<Action>, a: Action)
    requires m.Mon? && Explains(m, m.current, m.config, done) && !m.ended && OnConfigure(m, a).Mon?
    requires !a.Fetch? && !a.FetchFails? && !a.Submit? && !a.IsEp0() && Replies(done + [a]) == Replies(done)
    ensures Explains(OnConfigure(m, a), m.current, m.config, done + [a])
  {
    WitnessedAppend(m, done, a);
    var u := OnConfigure(m, a);
    if !u.stage.Quiet? && !u.ended {
      ProgressNext(m, done, a);
    }
    hide Walk, Replies, Witnessed, Progress;
  }

  lemma ProgressNext(m: Verdict, done: seq<Action>, a: Action)
    requires m.Mon? && OnConfigure(m, a).Mon? && !a.Join?
    requires !m.stage.Quiet? && !OnConfigure(m, a).stage.Quiet? && !OnConfigure(m, a).ended
    requires m.current.Some? && m.config.Some? && Progress(done, m.current.value, m.config.value, m.stage)
    ensures Progress(done + [a], m.current.value, m.config.value, OnConfigure(m, a).stage)
  {
    hide Walk, Accepts;
    var eps, hs := Walk(m.config.value), m.stage.handles;
    assert (done + [a])[1..] == done[1..] + [a];
    if a.EpEnable? {
      assert Enables(eps[..|hs| + 1], hs + [a.handle.value]) == Enables(eps[..|hs|], hs) + [a];
    } else {
      assert eps[..|eps|] == eps;
    }
  }

  lemma ObserveExplains(m: Verdict, before: seq<Action>, a: Action)
    requires m.Mon? && ExplainsTrace(m, before) && Observe(m, a).Mon?
    ensures ExplainsTrace(Observe(m, a), before + [a])
  {
    HistoryNext(before, a);
    var done := SinceFetch(before);
    assert !a.Fetch? && done != [] ==> (done + [a])[0] == done[0] && (done + [a])[1..] == done[1..] + [a];
    hide SinceFetch, CurrentRequest, LatestConfig, Explains, OnFetch, OnSubmit, OnReply, OnConfigure, Replies;
    if a.Fetch? {
      FetchExplains(m, CurrentRequest(before), LatestConfig(before), done, a);
    } else if a.FetchFails? {
      EndExplains(m, done, a);
    } else if a.Submit? {
      SubmitExplains(m, done, a);
    } else if a.IsEp0() {
      ReplyExplains(m, done, a);
    } else {
      ConfigureExplains(m, done, a);
    }
  }
}
