/** The bridge as a step system: any number of threads calling through the writer mutex, one reader
    thread, and a server at the other end of the socket (usbipdevirt/src/main.rs on top of the split
    halves of usbip/src/client.rs).

    Every region under the shared-state mutex, and every region under the bridge map's mutex except the
    drain, is one step; the writer mutex and the map's mutex during the drain are held across steps.
    Frames are written, and arrive, in pieces of any size. Each call owns the channel it creates, so a call and its
    channel have one name. The fields from `issued` on only record the past. */
module BridgeSystem {
  import opened Bytes
  import opened Protocol
  import opened Wire
  import opened Commands
  import opened Responses

  type Tid = nat
  type Chan = nat

  const NO_SETUP: Setup := [0, 0, 0, 0, 0, 0, 0, 0]

  /** How a call ended. `UnlinkSent` is the success of an unlink, which waits for nothing. */
  datatype Result = Delivered(ret: RetSubmit) | BrokenPipe | WriteError | UnlinkSent {
    /** An endpoint loop goes round again only after a response with status 0. */
    predicate Good() { Delivered? && ret.status == 0 }
  }

  datatype Pc =
    | Calling                              // wants the writer mutex
    | Locked                               // holds it, up to and including Written
    | Numbered(seqnum: u32)                // wants the shared mutex to register
    | Writing(seqnum: u32, done: nat)
    | Failed(seqnum: u32)                  // wants the shared mutex to roll back
    | Written(seqnum: u32)                 // wants the map mutex to insert its sender
    | Waiting(seqnum: u32, late: bool)     // receiving; late: inserted after the drain
    | Returned(seqnum: u32, result: Result)
  {
    predicate HasSeqnum() { !Calling? && !Locked? }
    predicate HoldsWriter() { Locked? || Numbered? || Writing? || Failed? || Written? }
    predicate Outstanding() { Writing? || Failed? || Written? || Waiting? }
    /** The command is wholly on the wire. */
    predicate Complete() { Written? || Waiting? || (Returned? && !result.WriteError?) }
    /** A result came through the channel. */
    predicate Told() { Returned? && (result.Delivered? || result.BrokenPipe?) }
    predicate RolledBack() { Returned? && result.WriteError? }
  }

  datatype CallState = CallState(tid: Tid, call: Call, pc: Pc)

  /** A thread either calls as it likes or runs one of the endpoint loops. */
  datatype Kind = Caller | InPump(ep: u32, maxPacket: u32) | OutPump(ep: u32, maxPacket: u32) {
    predicate MayCall(call: Call) {
      match this
      case Caller => true
      case InPump(ep, max) => call == SubmitCall(ep, In, 0, max, NO_SETUP, [], 0)
      case OutPump(ep, max) =>
        call.SubmitCall? && |call.data| <= max &&
        call == SubmitCall(ep, Out, 0, |call.data|, NO_SETUP, call.data, 0)
    }
  }

  datatype Status = Ready | InCall(ch: Chan) | Exited

  /** `packets` are the OUT packets read from the gadget, `payloads` the IN payloads written to it. */
  datatype Thread = Thread(kind: Kind, status: Status, packets: seq<seq<byte>>, payloads: seq<seq<byte>>)

  datatype Reader =
    | AtHeader
    | AtLookup(submit: RetSubmitHeader)
    | AtPayload(submit: RetSubmitHeader, direction: Direction)
    | AtDeliver(ret: RetSubmit)
    | AtSend(ch: Chan, ret: RetSubmit)
    | AtUnlink(unlink: RetUnlinkHeader)
    | Stopping
    | Draining                              // holds the map mutex
    | Stopped
  {
    predicate Live() { !Stopping? && !Draining? && !Stopped? }
    predicate Drains() { Draining? || Stopped? }
  }

  datatype Entry = Entry(tid: Tid, command: Command)
  datatype Cut = Cut(command: Command, count: nat)

  /** A reply and the submission it settles, if any. */
  datatype Served = Served(reply: Reply, settles: Option<u32>)

  datatype State = State(
    devid: u32, next: u32, writer: Option<Chan>, shared: Shared, bridge: map<u32, Chan>,
    mail: map<Chan, Result>, threads: map<Tid, Thread>, calls: seq<CallState>, reader: Reader,
    sent: seq<byte>, broken: Option<Cut>, inp: seq<byte>, wire: seq<byte>,
    issued: map<u32, Chan>, log: seq<Entry>, sends: multiset<Chan>, answers: map<u32, RetSubmit>,
    lost: set<u32>, cancelled: map<u32, u32>, served: seq<Served>, taken: nat)
  {
    function Pc(ch: Chan): Pc
      requires ch < |calls|
    {
      calls[ch].pc
    }

    /** What the server has sent and the reader has not read: the bytes that have arrived, then the others. */
    function Incoming(): seq<byte> {
      inp + wire
    }

    /** The command of a call that has its number. */
    function CommandOf(ch: Chan): Command
      requires ch < |calls| && Pc(ch).HasSeqnum()
    {
      Command(Pc(ch).seqnum, devid, calls[ch].call)
    }
  }

  /** One call's program counter moves on. */
  function Move(calls: seq<CallState>, ch: Chan, pc: Pc): (moved: seq<CallState>)
    requires ch < |calls|
  {
    calls[ch := calls[ch].(pc := pc)]
  }

  function Logged(log: seq<Entry>): (cs: seq<Command>)
    ensures |cs| == |log|
    ensures forall i | 0 <= i < |log| :: cs[i] == log[i].command
  {
    seq(|log|, i requires 0 <= i < |log| => log[i].command)
  }

  function Init(devid: u32): State {
    State(devid, 1, None, Shared(map[], map[]), map[], map[], map[], [], AtHeader, [], None, [], [],
          map[], [], multiset{}, map[], {}, map[], [], 0)
  }

  datatype Step =
    | Spawn(t: Tid, kind: Kind)
    | Begin(t: Tid, call: Call)
    | LockWriter(ch: Chan)
    | Number(ch: Chan)
    | RegisterCall(ch: Chan)
    | WriteSome(ch: Chan, n: nat)
    | WriteFails(ch: Chan)
    | RollBack(ch: Chan)
    | Insert(ch: Chan)
    | TakeMail(ch: Chan)
    | Resume(t: Tid, gadgetOk: bool)
    | ReadHeader
    | ReadFails
    | LookupPending
    | ReadPayload
    | Deliver
    | SendAnswer
    | SettleUnlinkCall
    | BeginDrain
    | DrainOne(seqnum: u32)
    | EndDrain
    | ServerBytes(bytes: seq<byte>)
    | ServerReply(reply: Reply, settles: Option<u32>)
    | Arrive(count: nat)

  // --- Threads (usbipdevirt/src/main.rs:50-82, 193-243; usbip/src/client.rs:245-302) ---

  predicate ThreadEnabled(s: State, step: Step) {
    match step
    case Spawn(t, _) => t !in s.threads
    case Begin(t, call) => t in s.threads && s.threads[t].status.Ready? && s.threads[t].kind.MayCall(call)
    case LockWriter(ch) => ch < |s.calls| && s.Pc(ch).Calling? && s.writer.None?
    case Number(ch) => ch < |s.calls| && s.Pc(ch).Locked? && s.next < U32_MAX
    case RegisterCall(ch) => ch < |s.calls| && s.Pc(ch).Numbered?
    case WriteSome(ch, n) =>
      ch < |s.calls| && s.Pc(ch).Writing? && s.broken.None? && 0 < n &&
      s.Pc(ch).done + n <= |s.CommandOf(ch).AsBytes()|
    case WriteFails(ch) => ch < |s.calls| && s.Pc(ch).Writing?
    case RollBack(ch) => ch < |s.calls| && s.Pc(ch).Failed?
    case Insert(ch) => ch < |s.calls| && s.Pc(ch).Written? && !s.reader.Draining?
    case TakeMail(ch) => ch < |s.calls| && s.Pc(ch).Waiting? && ch in s.mail
    case Resume(t, _) =>
      t in s.threads && s.threads[t].status.InCall? && s.threads[t].status.ch < |s.calls| &&
      s.Pc(s.threads[t].status.ch).Returned?
    case _ => false
  }

  function DoThread(s: State, step: Step): State
    requires ThreadEnabled(s, step)
  {
    match step
    case Spawn(t, kind) => s.(threads := s.threads[t := Thread(kind, Ready, [], [])])
    case Begin(t, call) => DoBegin(s, t, call)
    case LockWriter(ch) => s.(writer := Some(ch), calls := Move(s.calls, ch, Locked))
    case Number(ch) =>
      s.(next := s.next + 1, issued := s.issued[s.next := ch], calls := Move(s.calls, ch, Numbered(s.next)))
    case RegisterCall(ch) =>
      s.(shared := Register(s.shared, s.Pc(ch).seqnum, s.calls[ch].call),
         calls := Move(s.calls, ch, Writing(s.Pc(ch).seqnum, 0)))
    case WriteSome(ch, n) => DoWrite(s, ch, n)
    case WriteFails(ch) => DoWriteFails(s, ch)
    case RollBack(ch) =>
      s.(shared := Unregister(s.shared, s.Pc(ch).seqnum, s.calls[ch].call), writer := None,
         calls := Move(s.calls, ch, Returned(s.Pc(ch).seqnum, WriteError)))
    case Insert(ch) =>
      s.(bridge := s.bridge[s.Pc(ch).seqnum := ch], writer := None,
         calls := Move(s.calls, ch, Waiting(s.Pc(ch).seqnum, s.reader.Stopped?)))
    case TakeMail(ch) =>
      s.(mail := s.mail - {ch}, calls := Move(s.calls, ch, Returned(s.Pc(ch).seqnum, s.mail[ch])))
    case Resume(t, gadgetOk) => DoResume(s, t, gadgetOk)
  }

  /** An OUT loop calls with the packet it has just read from the gadget. */
  function DoBegin(s: State, t: Tid, call: Call): State
    requires ThreadEnabled(s, Begin(t, call))
  {
    var th := s.threads[t];
    var packets := if th.kind.OutPump? then th.packets + [call.data] else th.packets;
    s.(threads := s.threads[t := th.(status := InCall(|s.calls|), packets := packets)],
       calls := s.calls + [CallState(t, call, Calling)])
  }

  function DoWrite(s: State, ch: Chan, n: nat): State
    requires ThreadEnabled(s, WriteSome(ch, n))
  {
    var done, bs := s.Pc(ch).done, s.CommandOf(ch).AsBytes();
    Wrote(s, ch, bs[done..done + n], done + n == |bs|)
  }

  /** Once the last byte is out the command counts as posted; an unlink then returns at once. */
  function Wrote(s: State, ch: Chan, piece: seq<byte>, complete: bool): State
    requires ch < |s.calls| && s.Pc(ch).Writing?
  {
    var pc := AfterWrite(s.Pc(ch), s.calls[ch].call, |piece|, complete);
    s.(sent := s.sent + piece, calls := Move(s.calls, ch, pc),
       log := if complete then s.log + [Entry(s.calls[ch].tid, s.CommandOf(ch))] else s.log,
       writer := if pc.Returned? then None else s.writer)
  }

  function AfterWrite(pc: Pc, call: Call, n: nat, complete: bool): Pc
    requires pc.Writing?
  {
    if !complete then Writing(pc.seqnum, pc.done + n)
    else if call.SubmitCall? then Written(pc.seqnum)
    else Returned(pc.seqnum, UnlinkSent)
  }

  /** The outgoing direction is dead from the first failed write on. */
  function DoWriteFails(s: State, ch: Chan): State
    requires ThreadEnabled(s, WriteFails(ch))
  {
    s.(broken := if s.broken.None? then Some(Cut(s.CommandOf(ch), s.Pc(ch).done)) else s.broken,
       calls := Move(s.calls, ch, Failed(s.Pc(ch).seqnum)))
  }

  function DoResume(s: State, t: Tid, gadgetOk: bool): State
    requires ThreadEnabled(s, Resume(t, gadgetOk))
  {
    var th := s.threads[t];
    var r := s.Pc(th.status.ch).result;
    var th' :=
      match th.kind
      case Caller => th.(status := Ready)
      case OutPump(_, _) => th.(status := if r.Good() then Ready else Exited)
      case InPump(_, _) =>
        if r.Good() && gadgetOk then th.(status := Ready, payloads := th.payloads + [r.ret.data])
        else th.(status := Exited);
    s.(threads := s.threads[t := th'])
  }

  // --- The reader (usbip/src/client.rs:316-379; usbipdevirt/src/main.rs:84-119) ---

  predicate ReaderEnabled(s: State, step: Step) {
    match step
    case ReadHeader => s.reader.AtHeader? && |s.inp| >= HEADER_LEN
    case ReadFails => s.reader.AtHeader? || s.reader.AtPayload?
    case LookupPending => s.reader.AtLookup?
    case ReadPayload => s.reader.AtPayload? && s.reader.submit.actualLength <= |s.inp|
    case Deliver => s.reader.AtDeliver?
    case SendAnswer => s.reader.AtSend? && s.reader.ch !in s.mail
    case SettleUnlinkCall => s.reader.AtUnlink?
    case BeginDrain => s.reader.Stopping?
    case DrainOne(q) => s.reader.Draining? && q in s.bridge && s.bridge[q] !in s.mail
    case EndDrain => s.reader.Draining? && s.bridge == map[]
    case _ => false
  }

  function DoReader(s: State, step: Step): State
    requires ReaderEnabled(s, step)
  {
    match step
    case ReadHeader => DoReadHeader(s)
    case ReadFails => s.(reader := Stopping)
    case LookupPending => DoLookup(s)
    case ReadPayload => DoReadPayload(s)
    case Deliver => DoDeliver(s)
    case SendAnswer =>
      s.(mail := s.mail[s.reader.ch := Delivered(s.reader.ret)], sends := s.sends + multiset{s.reader.ch},
         reader := AtHeader)
    case SettleUnlinkCall => DoSettleUnlink(s)
    case BeginDrain => s.(reader := Draining)
    case DrainOne(q) =>
      s.(bridge := s.bridge - {q}, mail := s.mail[s.bridge[q] := BrokenPipe],
         sends := s.sends + multiset{s.bridge[q]})
    case EndDrain => s.(reader := Stopped)
  }

  function DoReadHeader(s: State): State
    requires ReaderEnabled(s, ReadHeader)
  {
    s.(inp := s.inp[HEADER_LEN..], taken := s.taken + 1, reader := AfterHeader(s.inp))
  }

  function AfterHeader(bs: seq<byte>): Reader
    requires |bs| >= HEADER_LEN
  {
    if U32At(bs, 0) == USBIP_RET_SUBMIT then AtLookup(RetSubmitFrom(bs))
    else if U32At(bs, 0) == USBIP_RET_UNLINK then AtUnlink(RetUnlinkFrom(bs))
    else Stopping
  }

  function DoLookup(s: State): State
    requires ReaderEnabled(s, LookupPending)
  {
    var (direction, sh) := Lookup(s.shared, s.reader.submit.seqnum);
    var reader := AfterLookup(s.reader.submit, direction);
    s.(shared := sh, reader := reader, answers := Answered(s.answers, reader))
  }

  function AfterLookup(h: RetSubmitHeader, direction: Option<Direction>): Reader {
    if direction.None? then Stopping
    else if direction.value.In? && h.actualLength > 0 then AtPayload(h, In)
    else AtDeliver(RetSubmit(h.seqnum, h.status, h.actualLength, [], direction.value))
  }

  /** A response that is complete is recorded. */
  function Answered(answers: map<u32, RetSubmit>, reader: Reader): map<u32, RetSubmit> {
    if reader.AtDeliver? then answers[reader.ret.seqnum := reader.ret] else answers
  }

  function DoReadPayload(s: State): State
    requires ReaderEnabled(s, ReadPayload)
  {
    var h := s.reader.submit;
    var reader := AtDeliver(
      RetSubmit(h.seqnum, h.status, h.actualLength, s.inp[..h.actualLength], s.reader.direction));
    s.(inp := s.inp[h.actualLength..], reader := reader, answers := Answered(s.answers, reader))
  }

  /** A response nobody has inserted a sender for is dropped. */
  function DoDeliver(s: State): State
    requires ReaderEnabled(s, Deliver)
  {
    var ret := s.reader.ret;
    var found := ret.seqnum in s.bridge;
    s.(bridge := s.bridge - {ret.seqnum},
       reader := if found then AtSend(s.bridge[ret.seqnum], ret) else AtHeader,
       lost := if found then s.lost else s.lost + {ret.seqnum})
  }

  function DoSettleUnlink(s: State): State
    requires ReaderEnabled(s, SettleUnlinkCall)
  {
    var h := s.reader.unlink;
    var hit := h.seqnum in s.shared.unlinks && h.status == -ECONNRESET;
    s.(shared := SettleUnlink(s.shared, h.seqnum, h.status), reader := AtHeader,
       cancelled := if hit then s.cancelled[s.shared.unlinks[h.seqnum] := h.seqnum] else s.cancelled)
  }

  // --- The server ---

  predicate ServerEnabled(s: State, step: Step) {
    match step
    case ServerBytes(_) => true
    case ServerReply(r, _) => r.Valid()
    case Arrive(n) => n <= |s.wire|
    case _ => false
  }

  function DoServer(s: State, step: Step): State
    requires ServerEnabled(s, step)
  {
    match step
    case ServerBytes(bs) => s.(wire := s.wire + bs)
    case ServerReply(r, settles) => s.(wire := s.wire + r.AsBytes(), served := s.served + [Served(r, settles)])
    case Arrive(n) => s.(inp := s.inp + s.wire[..n], wire := s.wire[n..])
  }

  // --- Runs ---

  predicate Enabled(s: State, step: Step) {
    ThreadEnabled(s, step) || ReaderEnabled(s, step) || ServerEnabled(s, step)
  }

  function Do(s: State, step: Step): State
    requires Enabled(s, step)
  {
    if ThreadEnabled(s, step) then DoThread(s, step)
    else if ReaderEnabled(s, step) then DoReader(s, step)
    else DoServer(s, step)
  }

  /** The state a schedule of steps leads to; None if it takes a step that is not enabled. */
  function Run(s: State, steps: seq<Step>): Option<State>
    decreases |steps|
  {
    if steps == [] then Some(s)
    else if !Enabled(s, steps[0]) then None
    else Run(Do(s, steps[0]), steps[1..])
  }
}
