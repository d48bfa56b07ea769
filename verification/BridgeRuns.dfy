/** What holds in every state the bridge can reach, for any schedule of any number of threads. */
module BridgeRuns {
  import opened Bytes
  import opened Protocol
  import opened Commands
  import opened Responses
  import opened BridgeSystem
  import opened BridgeSafety
  import opened BridgeWire
  import opened BridgeAccount
  import opened BridgePumps
  import opened BridgeConforming

  /** `s` is what some schedule leads to from a fresh connection to device `devid`. */
  ghost predicate Reached(devid: u32, steps: seq<Step>, s: State) {
    Run(Init(devid), steps) == Some(s)
  }

  lemma Reachable(devid: u32, steps: seq<Step>, s: State)
    requires Reached(devid, steps, s)
    ensures Inv(s) && WireInv(s) && BookInv(s) && PumpInv(s.threads, s.calls, s.log, s.answers)
  {
    InitialState(devid);
    hide Inv, WireInv, BookInv, PumpInv, Init;
    RunKeeps(Init(devid), steps);
    RunKeepsWire(Init(devid), steps);
    RunKeepsBook(Init(devid), steps);
    RunKeepsPumps(Init(devid), steps);
  }

  lemma InitialState(devid: u32)
    ensures var s := Init(devid);
            && Inv(s) && WireInv(s) && BookInv(s) && PumpInv(s.threads, s.calls, s.log, s.answers) && ProtocolInv(s)
  {
    InitInv(devid);
    InitialWire(devid);
    InitialProtocol(devid);
    InitialBook(devid);
    hide Inv, WireInv, BookInv, PumpInv, ProtocolInv, Init;
  }

  lemma InitialWire(devid: u32)
    ensures WireInv(Init(devid))
  {
    assert Logged([]) == [];
  }

  lemma InitialProtocol(devid: u32)
    ensures ProtocolInv(Init(devid))
  {
    InitialExact(devid);
    hide ExactInv, ServedOk;
    assert Replies([]) == [];
  }

  lemma InitialExact(devid: u32)
    ensures var s := Init(devid); ExactInv(s.calls, s.issued, s.shared, s.served, Resolved(s.reader, s.taken))
  {}

  lemma InitialBook(devid: u32)
    ensures var s := Init(devid); BookInv(s) && PumpInv(s.threads, s.calls, s.log, s.answers)
  {}

  // --- Routing ---

  /** A call that returns a response has the response to its own number, of the direction it asked for,
      with exactly the announced bytes when that is IN and none when it is OUT. */
  lemma RoutingSafety(devid: u32, steps: seq<Step>, s: State, ch: Chan)
    requires Reached(devid, steps, s) && ch < |s.calls|
    requires s.Pc(ch).Returned? && s.Pc(ch).result.Delivered?
    ensures s.calls[ch].call.SubmitCall?
    ensures var ret := s.Pc(ch).result.ret;
            ret.seqnum == s.Pc(ch).seqnum && ret.direction == s.calls[ch].call.direction && ret.WellShaped()
  {
    Reachable(devid, steps, s);
    hide Reached, WireInv, BookInv, PumpInv, WriterInv, PendingInv, CarriedInv, SenderInv, MailInv, WaitingInv,
         SendsInv;
    assert GoodResult(s.Pc(ch).seqnum, s.Pc(ch).result, s.answers, s.reader.Drains());
  }

  /** No two calls ever have the same number. */
  lemma NumbersAreUnique(devid: u32, steps: seq<Step>, s: State, c: Chan, d: Chan)
    requires Reached(devid, steps, s) && c < |s.calls| && d < |s.calls|
    requires s.Pc(c).HasSeqnum() && s.Pc(d).HasSeqnum() && s.Pc(c).seqnum == s.Pc(d).seqnum
    ensures c == d
  {
    Reachable(devid, steps, s);
    hide Reached, WireInv, BookInv, PumpInv, WriterInv, PendingInv, AnswersInv, CarriedInv, SenderInv, MailInv,
         ReturnedInv, WaitingInv, SendsInv;
  }

  // --- Where a sender is ---

  /** The caller has inserted its sender. */
  predicate Inserted(pc: Pc) {
    pc.Waiting? || pc.Told()
  }

  /** An inserted sender is in exactly one place, always: in the map, in the reader's hands, or used, once. */
  lemma SenderIsInOnePlace(devid: u32, steps: seq<Step>, s: State, ch: Chan)
    requires Reached(devid, steps, s) && ch < |s.calls| && Inserted(s.Pc(ch))
    ensures var q := s.Pc(ch).seqnum;
            (if InBridge(s.bridge, q, ch) then 1 else 0) + (if HeldByReader(s.reader, ch) then 1 else 0)
            + s.sends[ch] == 1
  {
    Reachable(devid, steps, s);
    hide Reached, WireInv, BookInv, PumpInv, WriterInv, IssuedInv, PendingInv, AnswersInv, CarriedInv, ReturnedInv;
    OnePlace(s.calls, s.bridge, s.mail, s.reader, s.sends, ch);
  }

  lemma OnePlace(calls: Calls, bridge: map<u32, Chan>, mail: map<Chan, Result>, reader: Reader,
                 sends: multiset<Chan>, ch: Chan)
    requires SenderInv(calls, bridge, mail, reader) && WaitingInv(calls, bridge, mail, reader)
    requires SendsInv(calls, mail, sends) && ch < |calls| && Inserted(calls[ch].pc)
    ensures (if InBridge(bridge, calls[ch].pc.seqnum, ch) then 1 else 0) + (if HeldByReader(reader, ch) then 1 else 0)
            + sends[ch] == 1
  {
    assert WaitingOk(calls[ch], ch, bridge, mail, reader);
    if reader.AtSend? {
      assert WaitsOn(calls, reader.ret.seqnum, reader.ch);
    }
    if InBridge(bridge, calls[ch].pc.seqnum, ch) {
      assert WaitsOn(calls, calls[ch].pc.seqnum, ch);
    }
  }

  /** While the reader lives, a sender in the map has its submission still remembered, or its response
      with the reader, or was inserted after its response had been dropped, or an unlink cancelled it. */
  lemma WaitingIsAccountedFor(devid: u32, steps: seq<Step>, s: State, q: u32)
    requires Reached(devid, steps, s) && s.reader.Live() && q in s.bridge
    ensures q in s.shared.pending || ReaderHas(s.reader, q) || q in s.lost || q in s.cancelled
    ensures q in s.cancelled ==> IsUnlink(s.calls, s.issued, s.cancelled[q], q)
  {
    Reachable(devid, steps, s);
    hide Reached, WireInv, PumpInv, WriterInv, IssuedInv, PendingInv, AnswersInv, CarriedInv, SenderInv, MailInv,
         ReturnedInv, WaitingInv, SendsInv, ThreadInv, UnsentInv, LostInv;
    BridgedIsUnsent(s.calls, s.issued, s.next, s.bridge, s.mail, s.reader, s.sends, q);
    assert AccountedFor(s, q);
  }

  /** A sender in the map belongs to a submission, and has not been used. */
  lemma BridgedIsUnsent(calls: Calls, issued: map<u32, Chan>, next: u32, bridge: map<u32, Chan>,
                        mail: map<Chan, Result>, reader: Reader, sends: multiset<Chan>, q: u32)
    requires IssuedInv(calls, issued, next) && SenderInv(calls, bridge, mail, reader)
    requires WaitingInv(calls, bridge, mail, reader) && SendsInv(calls, mail, sends) && q in bridge
    ensures bridge[q] < |calls| && IsSubmit(calls, issued, q, calls[bridge[q]].call.direction)
    ensures issued[q] == bridge[q] && sends[issued[q]] == 0
  {
    var ch := bridge[q];
    assert WaitsOn(calls, q, ch);
    assert WaitingOk(calls[ch], ch, bridge, mail, reader);
  }

  /** A response is dropped exactly when its caller has not inserted its sender yet. */
  lemma DroppedExactlyWhenEarly(devid: u32, steps: seq<Step>, s: State)
    requires Reached(devid, steps, s) && s.reader.AtDeliver?
    ensures var q := s.reader.ret.seqnum;
            && q in s.issued && s.issued[q] < |s.calls|
            && (DoReader(s, Deliver).reader.AtHeader? <==> !s.Pc(s.issued[q]).Waiting?)
            && (DoReader(s, Deliver).reader.AtSend? <==> s.Pc(s.issued[q]).Waiting?)
  {
    Reachable(devid, steps, s);
    hide Reached, WireInv, PumpInv, WriterInv, PendingInv, MailInv, ReturnedInv, ThreadInv, AccountInv, CancelledInv,
         IssuedInv, AnswersInv, SenderInv, WaitingInv, SendsInv, UnsentInv, DoReader;
    InsertedExactly(s.calls, s.issued, s.next, s.bridge, s.mail, s.sends, s.reader, s.answers);
    DeliverDrops(s);
  }

  lemma DeliverDrops(s: State)
    requires s.reader.AtDeliver?
    ensures DoReader(s, Deliver).reader.AtHeader? <==> s.reader.ret.seqnum !in s.bridge
    ensures DoReader(s, Deliver).reader.AtSend? <==> s.reader.ret.seqnum in s.bridge
  {}

  lemma InsertedExactly(calls: Calls, issued: map<u32, Chan>, next: u32, bridge: map<u32, Chan>,
                        mail: map<Chan, Result>, sends: multiset<Chan>, reader: Reader, answers: map<u32, RetSubmit>)
    requires IssuedInv(calls, issued, next) && SenderInv(calls, bridge, mail, reader)
    requires WaitingInv(calls, bridge, mail, reader) && SendsInv(calls, mail, sends) && UnsentInv(issued, reader, sends)
    requires AnswersInv(calls, issued, answers) && reader.AtDeliver? && reader.ret.seqnum in answers
    ensures var q := reader.ret.seqnum;
            q in issued && issued[q] < |calls| && (q in bridge <==> calls[issued[q]].pc.Waiting?)
  {
    var q := reader.ret.seqnum;
    assert IsSubmit(calls, issued, q, answers[q].direction);
    assert ReaderHas(reader, q);
    assert WaitingOk(calls[issued[q]], issued[q], bridge, mail, reader);
    assert q in bridge ==> WaitsOn(calls, q, bridge[q]);
  }

  /** No channel is ever sent to twice, so the reader's sends on channels of capacity one never block,
      not even those it makes while it holds the map's mutex. */
  lemma ReaderNeverBlocks(devid: u32, steps: seq<Step>, s: State)
    requires Reached(devid, steps, s)
    ensures forall ch: Chan :: s.sends[ch] <= 1
    ensures s.reader.AtSend? ==> ReaderEnabled(s, SendAnswer)
    ensures s.reader.Draining? ==> forall q | q in s.bridge :: ReaderEnabled(s, DrainOne(q))
    ensures s.reader.Draining? && s.bridge == map[] ==> ReaderEnabled(s, EndDrain)
  {
    Reachable(devid, steps, s);
    hide Reached, WireInv, BookInv, PumpInv, WriterInv, IssuedInv, PendingInv, AnswersInv, CarriedInv, MailInv,
         ReturnedInv, WaitingInv, SenderInv, SendsInv, ReaderEnabled;
    NeverBlocks(s);
  }

  lemma NeverBlocks(s: State)
    requires SenderInv(s.calls, s.bridge, s.mail, s.reader) && SendsInv(s.calls, s.mail, s.sends)
    ensures forall ch: Chan :: s.sends[ch] <= 1
    ensures s.reader.AtSend? ==> ReaderEnabled(s, SendAnswer)
    ensures s.reader.Draining? ==> forall q | q in s.bridge :: ReaderEnabled(s, DrainOne(q))
    ensures s.reader.Draining? && s.bridge == map[] ==> ReaderEnabled(s, EndDrain)
  {
    hide SenderInv, SendsInv;
    EmptyChannels(s.calls, s.bridge, s.mail, s.reader, s.sends);
  }

  lemma EmptyChannels(calls: Calls, bridge: map<u32, Chan>, mail: map<Chan, Result>, reader: Reader,
                      sends: multiset<Chan>)
    requires SenderInv(calls, bridge, mail, reader) && SendsInv(calls, mail, sends)
    ensures forall ch: Chan :: sends[ch] <= 1
    ensures reader.AtSend? ==> reader.ch !in mail
    ensures forall q | q in bridge :: bridge[q] !in mail
  {}

  // --- The drain ---

  function DrainSteps(steps: seq<Step>): nat {
    if steps == [] then 0 else (if steps[0].DrainOne? then 1 else 0) + DrainSteps(steps[1..])
  }

  /** The drain comes to an end: from any state of it on, whatever else happens, there are at most as many
      sends left to make as the map has entries. */
  lemma {:induction false} DrainIsBounded(s: State, steps: seq<Step>)
    requires s.reader.Drains() && Run(s, steps).Some?
    ensures DrainSteps(steps) <= if s.reader.Draining? then |s.bridge| else 0
    decreases |steps|
  {
    hide Enabled, Do;
    if steps != [] {
      DrainGoesOn(s, steps[0]);
      DrainIsBounded(Do(s, steps[0]), steps[1..]);
    }
  }

  /** While it lasts nothing enters the map, and each of its steps takes one entry out. */
  lemma DrainGoesOn(s: State, step: Step)
    requires s.reader.Drains() && Enabled(s, step)
    ensures var u := Do(s, step);
            && u.reader.Drains() && (s.reader.Stopped? ==> u.reader.Stopped? && !step.DrainOne?)
            && (s.reader.Draining? ==> |u.bridge| + (if step.DrainOne? then 1 else 0) <= |s.bridge|)
  {
    hide ThreadEnabled, ReaderEnabled, ServerEnabled, DoThread, DoReader, DoServer;
    if ThreadEnabled(s, step) {
      ThreadsLeaveDrain(s, step);
    } else if ReaderEnabled(s, step) {
      ReaderDrains(s, step);
    } else {
      ServerLeavesDrain(s, step);
    }
  }

  lemma ReaderDrains(s: State, step: Step)
    requires s.reader.Drains() && ReaderEnabled(s, step)
    ensures var u := DoReader(s, step);
            && s.reader.Draining? && u.reader.Drains()
            && |u.bridge| + (if step.DrainOne? then 1 else 0) <= |s.bridge|
  {
    if step.DrainOne? {
      OneLess(s.bridge, step.seqnum);
    }
  }

  lemma ServerLeavesDrain(s: State, step: Step)
    requires ServerEnabled(s, step)
    ensures DoServer(s, step).reader == s.reader && DoServer(s, step).bridge == s.bridge && !step.DrainOne?
  {
    hide Reply.AsBytes;
  }

  lemma ThreadsLeaveDrain(s: State, step: Step)
    requires ThreadEnabled(s, step)
    ensures var u := DoThread(s, step); u.reader == s.reader && (s.reader.Draining? ==> u.bridge == s.bridge)
    ensures !step.DrainOne?
  {
    hide Command.AsBytes;
  }

  lemma OneLess(m: map<u32, Chan>, q: u32)
    requires q in m
    ensures |m - {q}| == |m| - 1
  {
    assert (m - {q}).Keys == m.Keys - {q};
    assert |m - {q}| == |(m - {q}).Keys| && |m| == |m.Keys|;
  }

  /** Once the reader has stopped, every caller that inserted its sender before the drain has been sent
      exactly one result, and a waiting caller can return exactly when it is one of them. */
  lemma DrainTellsEveryoneInTime(devid: u32, steps: seq<Step>, s: State, ch: Chan)
    requires Reached(devid, steps, s) && s.reader.Stopped? && ch < |s.calls| && Inserted(s.Pc(ch))
    ensures s.sends[ch] == if InsertedLate(s.Pc(ch)) then 0 else 1
    ensures s.Pc(ch).Waiting? ==> (ThreadEnabled(s, TakeMail(ch)) <==> !InsertedLate(s.Pc(ch)))
  {
    Reachable(devid, steps, s);
    hide Reached, WireInv, BookInv, PumpInv, WriterInv, IssuedInv, PendingInv, AnswersInv, CarriedInv, MailInv,
         ReturnedInv, WaitingInv, SenderInv, SendsInv, ThreadEnabled;
    LateExactly(s.calls, s.bridge, s.mail, s.reader, s.sends, ch);
    if s.Pc(ch).Waiting? {
      MailCanBeTaken(s, ch);
    }
  }

  predicate InsertedLate(pc: Pc) {
    pc.Waiting? && pc.late
  }

  lemma MailCanBeTaken(s: State, ch: Chan)
    requires ch < |s.calls| && s.Pc(ch).Waiting?
    ensures ThreadEnabled(s, TakeMail(ch)) <==> ch in s.mail
  {
    hide Command.AsBytes;
  }

  lemma LateExactly(calls: Calls, bridge: map<u32, Chan>, mail: map<Chan, Result>, reader: Reader,
                    sends: multiset<Chan>, ch: Chan)
    requires SenderInv(calls, bridge, mail, reader) && WaitingInv(calls, bridge, mail, reader)
    requires SendsInv(calls, mail, sends) && reader.Stopped? && ch < |calls| && Inserted(calls[ch].pc)
    ensures calls[ch].pc.Waiting? ==> (ch in mail <==> !calls[ch].pc.late)
    ensures sends[ch] == if InsertedLate(calls[ch].pc) then 0 else 1
  {
    assert WaitingOk(calls[ch], ch, bridge, mail, reader);
  }

  /** A caller that inserts too late waits for ever. */
  lemma {:induction false} TooLateWaitsForEver(s: State, ch: Chan, steps: seq<Step>)
    requires Inv(s) && ch < |s.calls| && s.Pc(ch).Waiting? && s.Pc(ch).late && Run(s, steps).Some?
    ensures var u := Run(s, steps).value; ch < |u.calls| && u.Pc(ch) == s.Pc(ch)
    decreases |steps|
  {
    hide Inv;
    if steps != [] {
      TooLateStep(s, ch, steps[0]);
      StepKeeps(s, steps[0]);
      TooLateWaitsForEver(Do(s, steps[0]), ch, steps[1..]);
    }
  }

  lemma TooLateStep(s: State, ch: Chan, step: Step)
    requires Inv(s) && ch < |s.calls| && s.Pc(ch).Waiting? && s.Pc(ch).late && Enabled(s, step)
    ensures var u := Do(s, step); ch < |u.calls| && u.Pc(ch) == s.Pc(ch)
  {
    hide WriterInv, IssuedInv, PendingInv, AnswersInv, CarriedInv, MailInv, ReturnedInv, SendsInv;
    assert WaitingOk(s.calls[ch], ch, s.bridge, s.mail, s.reader);
    assert ch !in s.mail;
    hide SenderInv, WaitingInv, WaitingOk, Command.AsBytes;
    if ThreadEnabled(s, step) {
      UntouchedByThreads(s, ch, step);
    } else {
      OthersLeaveWire(s, step);
    }
  }

  lemma UntouchedByThreads(s: State, ch: Chan, step: Step)
    requires ch < |s.calls| && s.Pc(ch).Waiting? && ch !in s.mail && ThreadEnabled(s, step)
    ensures var u := DoThread(s, step); ch < |u.calls| && u.Pc(ch) == s.Pc(ch)
  {
    hide Command.AsBytes;
  }

  // --- Outstanding work ---

  ghost function Inside(s: State): (inside: set<Tid>)
    ensures forall t :: t in inside <==> t in s.threads && s.threads[t].status.InCall?
  {
    set t | t in s.threads && s.threads[t].status.InCall?
  }

  /** Until the drain, remembered submissions belong to distinct threads that are inside `submit`. */
  lemma OutstandingIsBounded(devid: u32, steps: seq<Step>, s: State)
    requires Reached(devid, steps, s) && !s.reader.Drains()
    ensures forall q | q in s.shared.pending :: OwnerInside(s, q)
    ensures forall p, q | p in s.shared.pending && q in s.shared.pending && p != q ::
              OwnerInside(s, p) && OwnerInside(s, q) && s.calls[s.issued[p]].tid != s.calls[s.issued[q]].tid
    ensures |s.shared.pending| <= |Inside(s)|
  {
    Reachable(devid, steps, s);
    forall q | q in s.shared.pending
      ensures OwnerInside(s, q)
    {
      PendingOwner(s, q);
    }
    hide Inv, WireInv, BookInv, PumpInv;
    var owner := map q | q in s.shared.pending :: s.calls[s.issued[q]].tid;
    InjectionBound(s.shared.pending.Keys, Inside(s), owner);
    assert |s.shared.pending| == |s.shared.pending.Keys|;
  }

  ghost predicate OwnerInside(s: State, q: u32) {
    && q in s.issued && s.issued[q] < |s.calls| && s.Pc(s.issued[q]).HasSeqnum() && s.Pc(s.issued[q]).seqnum == q
    && s.calls[s.issued[q]].tid in s.threads
    && s.threads[s.calls[s.issued[q]].tid].status == InCall(s.issued[q])
  }

  lemma PendingOwner(s: State, q: u32)
    requires Inv(s) && BookInv(s) && !s.reader.Drains() && q in s.shared.pending
    ensures OwnerInside(s, q)
  {
    hide WriterInv, AnswersInv, CarriedInv, SenderInv, MailInv, ReturnedInv, WaitingInv, SendsInv,
         AccountInv, CancelledInv, UnsentInv;
    assert PendingOk(s.calls, s.issued, q, s.shared.pending[q], s.answers, false);
    assert ThreadOk(s.threads, s.calls[s.issued[q]], s.issued[q]);
  }

  lemma {:induction false} InjectionBound<A, B>(xs: set<A>, ys: set<B>, f: map<A, B>)
    requires xs <= f.Keys && (forall x | x in xs :: f[x] in ys)
    requires forall x, y | x in xs && y in xs && x != y :: f[x] != f[y]
    ensures |xs| <= |ys|
  {
    if xs != {} {
      var x :| x in xs;
      InjectionBound(xs - {x}, ys - {f[x]}, f);
    }
  }

  // --- Progress under the mutexes ---

  /** The call that holds the writer mutex can take a step while numbers are left, unless it wants the map's
      mutex from the draining reader, which can. */
  lemma LockHoldersProgress(devid: u32, steps: seq<Step>, s: State)
    requires Reached(devid, steps, s) && s.next < U32_MAX
    ensures forall ch | 0 <= ch < |s.calls| && s.Pc(ch).HoldsWriter() ::
              CallCanStep(s, ch) || (s.Pc(ch).Written? && s.reader.Draining?)
    ensures s.reader.Draining? ==> ReaderEnabled(s, EndDrain) || exists q :: ReaderEnabled(s, DrainOne(q))
  {
    ReaderNeverBlocks(devid, steps, s);
    Reachable(devid, steps, s);
    hide Reached, Inv, WireInv, BookInv, PumpInv, Command.AsBytes;
    if s.reader.Draining? && s.bridge != map[] {
      var q :| q in s.bridge;
      assert ReaderEnabled(s, DrainOne(q));
    }
    forall ch | 0 <= ch < |s.calls| && s.Pc(ch).HoldsWriter()
      ensures CallCanStep(s, ch) || (s.Pc(ch).Written? && s.reader.Draining?)
    {
      HolderCanStep(s, ch);
    }
  }

  lemma HolderCanStep(s: State, ch: Chan)
    requires WireInv(s) && ch < |s.calls| && s.Pc(ch).HoldsWriter() && s.next < U32_MAX
    ensures CallCanStep(s, ch) || (s.Pc(ch).Written? && s.reader.Draining?)
  {
    hide Command.AsBytes, LogInv, AllBytes;
  }

  /** A write can be completed unless an earlier one failed; then it can fail. */
  ghost predicate CallCanStep(s: State, ch: Chan)
    requires ch < |s.calls|
  {
    || ThreadEnabled(s, Number(ch)) || ThreadEnabled(s, RegisterCall(ch))
    || (s.Pc(ch).Writing? && s.broken.None? && s.Pc(ch).done < |s.CommandOf(ch).AsBytes()|
        && ThreadEnabled(s, WriteSome(ch, |s.CommandOf(ch).AsBytes()| - s.Pc(ch).done)))
    || (s.broken.Some? && ThreadEnabled(s, WriteFails(ch)))
    || ThreadEnabled(s, RollBack(ch)) || ThreadEnabled(s, Insert(ch))
  }

  // --- The outgoing stream ---

  /** The bytes the threads have written begin with the commands they posted, whole, in strictly increasing
      order of number, each with its own call's fields and data, exactly when all of these announce their
      lengths truthfully. Nothing else is decoded unless the piece that follows announces a wrong length. */
  lemma OutgoingStream(devid: u32, steps: seq<Step>, s: State)
    requires Reached(devid, steps, s)
    ensures AllOnWire(Logged(s.log)) <= DecodeCommands(s.sent).commands <==> LogFramed(s.log)
    ensures LogFramed(s.log) && TailFramed(s) ==> DecodeCommands(s.sent).commands == AllOnWire(Logged(s.log))
    ensures forall i, j | 0 <= i < j < |s.log| :: s.log[i].command.seqnum < s.log[j].command.seqnum
    ensures forall i | 0 <= i < |s.log| :: EntryOk(s.calls, s.issued, s.devid, s.log[i])
  {
    Reachable(devid, steps, s);
    hide Reached, Inv, BookInv, PumpInv, DecodeCommands, TailFramed, LogFramed, SentInv, EntryOk;
    PostedDecodeExactly(s);
    if LogFramed(s.log) && TailFramed(s) {
      ServerView(s);
    }
  }

  lemma PostedDecodeExactly(s: State)
    requires SentInv(s.calls, s.writer, s.devid, s.broken, s.log, s.sent)
    ensures AllOnWire(Logged(s.log)) <= DecodeCommands(s.sent).commands <==> LogFramed(s.log)
  {
    hide DecodeCommands, AllBytes, Tail, CutInv, Call.Framed;
    CommandsDecodeExactly(Logged(s.log), Tail(s.calls, s.writer, s.devid, s.broken));
  }

  /** The endpoint loops announce their lengths truthfully. */
  lemma LoopsAreFramed(kind: Kind, call: Call)
    requires !kind.Caller? && kind.MayCall(call)
    ensures call.Framed()
  {}

  // --- Endpoint loops ---

  /** An OUT loop's commands on the wire are, in order, the packets it read from the gadget: all of them,
      or all but the last. Nothing follows a command that was not answered with status 0. */
  lemma OutEndpointFifo(devid: u32, steps: seq<Step>, s: State, t: Tid)
    requires Reached(devid, steps, s) && t in s.threads && s.threads[t].kind.OutPump?
    ensures var packets, own := s.threads[t].packets, Own(s.log, t);
            && |own| <= |packets| <= |own| + 1
            && (forall k | 0 <= k < |own| ::
                  && s.threads[t].kind.MayCall(own[k].call) && own[k].call.data == packets[k])
            && AllGood(own, |packets| - 1, s.answers)
            && (|packets| > |own| ==> !s.threads[t].status.Ready?)
            && (s.threads[t].status.Ready? ==> AllGood(own, |own|, s.answers))
  {
    Reachable(devid, steps, s);
    hide Reached, Inv, WireInv, BookInv;
    assert PumpOk(s.threads[t], StageOf(s.threads[t], s.calls), Own(s.log, t), s.answers);
    hide PumpInv, Own;
    OutInOrder(s.threads[t], StageOf(s.threads[t], s.calls), Own(s.log, t), s.answers);
  }

  lemma OutInOrder(th: Thread, stage: Stage, own: seq<Command>, answers: map<u32, RetSubmit>)
    requires PumpOk(th, stage, own, answers) && th.kind.OutPump?
    ensures |own| <= |th.packets| <= |own| + 1 && (|th.packets| > |own| ==> !stage.Between?)
    ensures AllGood(own, |th.packets| - 1, answers) && (stage.Between? ==> AllGood(own, |own|, answers))
    ensures forall k | 0 <= k < |own| :: th.kind.MayCall(own[k].call) && own[k].call.data == th.packets[k]
  {
    forall k | 0 <= k < |own|
      ensures own[k].call.data == th.packets[k]
    {
      assert Datas(own)[k] == Data(own[k]);
    }
  }

  /** What an IN loop has written to the gadget is, in order, the data of the good responses to its own
      submissions, and it is never more than one behind. */
  lemma InEndpointFifo(devid: u32, steps: seq<Step>, s: State, t: Tid)
    requires Reached(devid, steps, s) && t in s.threads && s.threads[t].kind.InPump?
    ensures var own := Own(s.log, t);
            && |s.threads[t].payloads| <= |own| <= |s.threads[t].payloads| + 1
            && Fed(s.threads[t], own, s.answers)
            && (forall k | 0 <= k < |own| :: s.threads[t].kind.MayCall(own[k].call))
  {
    Reachable(devid, steps, s);
    hide Reached, Inv, WireInv, BookInv;
    assert PumpOk(s.threads[t], StageOf(s.threads[t], s.calls), Own(s.log, t), s.answers);
  }
}
