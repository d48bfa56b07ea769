/** The outgoing byte stream: whatever the interleaving of the submitting threads, it is a sequence of
    whole commands in the order of their numbers, followed by at most one piece of a further one. */
module BridgeWire {
  import opened Bytes
  import opened Wire
  import opened Commands
  import opened Responses
  import opened BridgeSystem
  import opened BridgeSafety

  /** The part of the stream after the last whole command. */
  function Tail(calls: Calls, writer: Option<Chan>, devid: u32, broken: Option<Cut>): (tail: seq<byte>) {
    if broken.Some? then
      var bs := broken.value.command.AsBytes();
      bs[..Min(broken.value.count, |bs|)]
    else if writer.Some? && writer.value < |calls| && calls[writer.value].pc.Writing? then
      var pc := calls[writer.value].pc;
      var bs := Command(pc.seqnum, devid, calls[writer.value].call).AsBytes();
      bs[..Min(pc.done, |bs|)]
    else []
  }

  ghost predicate SentInv(calls: Calls, writer: Option<Chan>, devid: u32, broken: Option<Cut>,
                          log: seq<Entry>, sent: seq<byte>)
  {
    sent == AllBytes(Logged(log)) + Tail(calls, writer, devid, broken) && CutInv(calls, devid, broken)
  }

  /** What is cut short is a call's command. */
  ghost predicate CutInv(calls: Calls, devid: u32, broken: Option<Cut>) {
    && (broken.Some? ==>
          && broken.value.count < |broken.value.command.AsBytes()|
          && (exists ch | 0 <= ch < |calls| :: calls[ch].call == broken.value.command.call))
    && (forall ch | 0 <= ch < |calls| && calls[ch].pc.Writing? ::
          calls[ch].pc.done < |Command(calls[ch].pc.seqnum, devid, calls[ch].call).AsBytes()|)
  }

  ghost predicate EntryOk(calls: Calls, issued: map<u32, Chan>, devid: u32, e: Entry) {
    var q := e.command.seqnum;
    && q in issued && IssuedTo(calls, q, issued[q]) && calls[issued[q]].pc.Complete()
    && e == Entry(calls[issued[q]].tid, Command(q, devid, calls[issued[q]].call))
  }

  ghost predicate LogInv(calls: Calls, issued: map<u32, Chan>, devid: u32, log: seq<Entry>) {
    && (forall i, j | 0 <= i < j < |log| :: log[i].command.seqnum < log[j].command.seqnum)
    && (forall i | 0 <= i < |log| :: EntryOk(calls, issued, devid, log[i]))
  }

  ghost predicate WireInv(s: State) {
    && SentInv(s.calls, s.writer, s.devid, s.broken, s.log, s.sent)
    && LogInv(s.calls, s.issued, s.devid, s.log)
  }

  // --- The log ---

  lemma LogMove(calls: Calls, issued: map<u32, Chan>, devid: u32, log: seq<Entry>, ch: Chan, pc: Pc)
    requires LogInv(calls, issued, devid, log) && ch < |calls|
    requires calls[ch].pc.Complete() ==> pc.Complete() && pc.seqnum == calls[ch].pc.seqnum
    ensures LogInv(Move(calls, ch, pc), issued, devid, log)
  {
    forall i | 0 <= i < |log|
      ensures EntryOk(Move(calls, ch, pc), issued, devid, log[i])
    {
      assert EntryOk(calls, issued, devid, log[i]);
    }
  }

  lemma LogAppend(calls: Calls, issued: map<u32, Chan>, next: u32, devid: u32, log: seq<Entry>, ch: Chan, pc: Pc)
    requires IssuedInv(calls, issued, next) && LogInv(calls, issued, devid, log)
    requires ch < |calls| && calls[ch].pc.Writing? && pc.Complete() && pc.seqnum == calls[ch].pc.seqnum
    ensures LogInv(Move(calls, ch, pc), issued, devid,
                   log + [Entry(calls[ch].tid, Command(pc.seqnum, devid, calls[ch].call))])
  {
    LogMove(calls, issued, devid, log, ch, pc);
    var e := Entry(calls[ch].tid, Command(pc.seqnum, devid, calls[ch].call));
    forall i | 0 <= i < |log|
      ensures log[i].command.seqnum < pc.seqnum
    {
      assert EntryOk(calls, issued, devid, log[i]);
    }
    assert EntryOk(Move(calls, ch, pc), issued, devid, e);
  }

  lemma LogFrame(calls: Calls, issued: map<u32, Chan>, devid: u32, log: seq<Entry>,
                 calls': Calls, issued': map<u32, Chan>)
    requires LogInv(calls, issued, devid, log)
    requires |calls| <= |calls'| && (forall q | q in issued :: q in issued' && issued'[q] == issued[q])
    requires forall ch | 0 <= ch < |calls| && calls[ch].pc.Complete() :: calls'[ch] == calls[ch]
    ensures LogInv(calls', issued', devid, log)
  {
    forall i | 0 <= i < |log|
      ensures EntryOk(calls', issued', devid, log[i])
    {
      assert EntryOk(calls, issued, devid, log[i]);
    }
  }

  lemma ThreadKeepsLog(s: State, step: Step)
    requires Inv(s) && LogInv(s.calls, s.issued, s.devid, s.log) && ThreadEnabled(s, step)
    ensures var u := DoThread(s, step); LogInv(u.calls, u.issued, u.devid, u.log)
  {
    hide PendingInv, AnswersInv, CarriedInv, SenderInv, MailInv, ReturnedInv, WaitingInv, SendsInv, LogInv,
         Command.AsBytes, IssuedInv;
    var u := DoThread(s, step);
    match step
    case Spawn(_, _) =>
    case Begin(_, _) => LogFrame(s.calls, s.issued, s.devid, s.log, u.calls, u.issued);
    case LockWriter(ch) => LogMove(s.calls, s.issued, s.devid, s.log, ch, u.Pc(ch));
    case Number(ch) => NumberKeepsLog(s, ch);
    case RegisterCall(ch) => LogMove(s.calls, s.issued, s.devid, s.log, ch, u.Pc(ch));
    case WriteSome(ch, n) =>
      var done, bs := s.Pc(ch).done, s.CommandOf(ch).AsBytes();
      WroteKeepsLog(s, ch, bs[done..done + n], done + n == |bs|);
    case WriteFails(ch) => LogMove(s.calls, s.issued, s.devid, s.log, ch, u.Pc(ch));
    case RollBack(ch) => LogMove(s.calls, s.issued, s.devid, s.log, ch, u.Pc(ch));
    case Insert(ch) => LogMove(s.calls, s.issued, s.devid, s.log, ch, u.Pc(ch));
    case TakeMail(ch) => TakeMailKeepsLog(s, ch);
    case Resume(_, _) =>
  }

  lemma NumberKeepsLog(s: State, ch: Chan)
    requires Inv(s) && LogInv(s.calls, s.issued, s.devid, s.log) && ThreadEnabled(s, Number(ch))
    ensures var u := DoThread(s, Number(ch)); LogInv(u.calls, u.issued, u.devid, u.log)
  {
    hide PendingInv, AnswersInv, CarriedInv, SenderInv, MailInv, ReturnedInv, WaitingInv, SendsInv, LogInv;
    var u := DoThread(s, Number(ch));
    NumberedNext(s.calls, s.issued, s.next, ch);
    LogFrame(s.calls, s.issued, s.devid, s.log, u.calls, u.issued);
  }

  lemma WroteKeepsLog(s: State, ch: Chan, piece: seq<byte>, complete: bool)
    requires Inv(s) && LogInv(s.calls, s.issued, s.devid, s.log) && ch < |s.calls| && s.Pc(ch).Writing?
    ensures var u := Wrote(s, ch, piece, complete); LogInv(u.calls, u.issued, u.devid, u.log)
  {
    hide PendingInv, AnswersInv, CarriedInv, SenderInv, MailInv, ReturnedInv, WaitingInv, SendsInv, IssuedInv, LogInv;
    var u := Wrote(s, ch, piece, complete);
    if complete {
      LogAppend(s.calls, s.issued, s.next, s.devid, s.log, ch, u.Pc(ch));
    } else {
      LogMove(s.calls, s.issued, s.devid, s.log, ch, u.Pc(ch));
    }
  }

  lemma TakeMailKeepsLog(s: State, ch: Chan)
    requires Inv(s) && LogInv(s.calls, s.issued, s.devid, s.log) && ThreadEnabled(s, TakeMail(ch))
    ensures var u := DoThread(s, TakeMail(ch)); LogInv(u.calls, u.issued, u.devid, u.log)
  {
    hide PendingInv, AnswersInv, CarriedInv, SenderInv, ReturnedInv, WaitingInv, SendsInv, IssuedInv, LogInv;
    assert GoodResult(s.Pc(ch).seqnum, s.mail[ch], s.answers, s.reader.Drains());
    LogMove(s.calls, s.issued, s.devid, s.log, ch, Returned(s.Pc(ch).seqnum, s.mail[ch]));
  }

  // --- The bytes ---

  lemma CutMove(calls: Calls, devid: u32, broken: Option<Cut>, ch: Chan, pc: Pc)
    requires CutInv(calls, devid, broken) && ch < |calls|
    requires pc.Writing? ==> pc.done < |Command(pc.seqnum, devid, calls[ch].call).AsBytes()|
    ensures CutInv(Move(calls, ch, pc), devid, broken)
  {
    hide Command.AsBytes;
    if broken.Some? {
      var c :| 0 <= c < |calls| && calls[c].call == broken.value.command.call;
      assert Move(calls, ch, pc)[c].call == broken.value.command.call;
    }
  }

  lemma WroteMore(calls: Calls, writer: Option<Chan>, devid: u32, log: seq<Entry>, sent: seq<byte>,
                  ch: Chan, n: nat, bs: seq<byte>)
    requires WriterInv(calls, writer) && SentInv(calls, writer, devid, None, log, sent)
    requires ch < |calls| && calls[ch].pc.Writing?
    requires bs == Command(calls[ch].pc.seqnum, devid, calls[ch].call).AsBytes() && calls[ch].pc.done + n < |bs|
    ensures var pc := calls[ch].pc;
            SentInv(Move(calls, ch, Writing(pc.seqnum, pc.done + n)), writer, devid, None, log,
                    sent + bs[pc.done..pc.done + n])
  {
    hide Command.AsBytes, AllBytes;
    var pc, done := calls[ch].pc, calls[ch].pc.done;
    assert writer == Some(ch);
    CutMove(calls, devid, None, ch, Writing(pc.seqnum, done + n));
    Associative(AllBytes(Logged(log)), bs[..done], bs[done..done + n]);
    assert bs[..done] + bs[done..done + n] == bs[..done + n];
  }

  lemma WroteLast(calls: Calls, writer: Option<Chan>, devid: u32, log: seq<Entry>, sent: seq<byte>,
                  ch: Chan, c: Command, pc: Pc, writer': Option<Chan>)
    requires WriterInv(calls, writer) && SentInv(calls, writer, devid, None, log, sent)
    requires ch < |calls| && calls[ch].pc.Writing? && c == Command(calls[ch].pc.seqnum, devid, calls[ch].call)
    requires !pc.Writing? && (writer' == Some(ch) || writer' == None)
    ensures SentInv(Move(calls, ch, pc), writer', devid, None, log + [Entry(calls[ch].tid, c)],
                    sent + c.AsBytes()[calls[ch].pc.done..])
  {
    hide Command.AsBytes, AllBytes;
    var bs, done := c.AsBytes(), calls[ch].pc.done;
    assert writer == Some(ch);
    CutMove(calls, devid, None, ch, pc);
    Associative(AllBytes(Logged(log)), bs[..done], bs[done..]);
    assert bs[..done] + bs[done..] == bs;
    AllBytesAppend(Logged(log), c);
    assert Logged(log + [Entry(calls[ch].tid, c)]) == Logged(log) + [c];
  }

  lemma WriteSomeKeepsSent(s: State, ch: Chan, n: nat)
    requires Inv(s) && WireInv(s) && ThreadEnabled(s, WriteSome(ch, n))
    ensures var u := DoThread(s, WriteSome(ch, n)); SentInv(u.calls, u.writer, u.devid, u.broken, u.log, u.sent)
  {
    hide Inv, WireInv, SentInv, LogInv, Command.AsBytes, Wrote;
    var done, bs := s.Pc(ch).done, s.CommandOf(ch).AsBytes();
    WroteKeepsSent(s, ch, bs, done + n, bs[done..done + n]);
  }

  lemma WroteKeepsSent(s: State, ch: Chan, bs: seq<byte>, end: nat, piece: seq<byte>)
    requires Inv(s) && WireInv(s) && ch < |s.calls| && s.Pc(ch).Writing? && s.broken == None
    requires bs == s.CommandOf(ch).AsBytes() && s.Pc(ch).done < end <= |bs| && piece == bs[s.Pc(ch).done..end]
    ensures var u := Wrote(s, ch, piece, end == |bs|); SentInv(u.calls, u.writer, u.devid, u.broken, u.log, u.sent)
  {
    hide IssuedInv, PendingInv, AnswersInv, CarriedInv, SenderInv, MailInv, ReturnedInv, WaitingInv, SendsInv,
         WriterInv, SentInv, LogInv, Command.AsBytes;
    WriterIs(s.calls, s.writer, ch);
    if end < |bs| {
      WroteMore(s.calls, s.writer, s.devid, s.log, s.sent, ch, end - s.Pc(ch).done, bs);
    } else {
      var u := Wrote(s, ch, piece, true);
      assert piece == bs[s.Pc(ch).done..];
      WroteLast(s.calls, s.writer, s.devid, s.log, s.sent, ch, s.CommandOf(ch), u.Pc(ch), u.writer);
    }
  }

  lemma WriterIs(calls: Calls, writer: Option<Chan>, ch: Chan)
    requires WriterInv(calls, writer) && ch < |calls| && calls[ch].pc.HoldsWriter()
    ensures writer == Some(ch)
  {}

  /** A move of a call that neither was nor is in the middle of a write leaves the stream alone. */
  lemma OtherMoveKeepsSent(calls: Calls, writer: Option<Chan>, writer': Option<Chan>, devid: u32, broken: Option<Cut>,
                           log: seq<Entry>, sent: seq<byte>, ch: Chan, pc: Pc)
    requires WriterInv(calls, writer) && SentInv(calls, writer, devid, broken, log, sent) && ch < |calls|
    requires !calls[ch].pc.Writing? && (pc.Writing? ==> pc.done == 0)
    requires writer' == writer || (writer == Some(ch) && writer' == None) || (writer == None && writer' == Some(ch))
    ensures SentInv(Move(calls, ch, pc), writer', devid, broken, log, sent)
  {
    hide Command.AsBytes, AllBytes;
    CutMove(calls, devid, broken, ch, pc);
    assert Tail(calls, writer, devid, broken) == Tail(Move(calls, ch, pc), writer', devid, broken);
  }

  lemma WriteFailsKeepsSent(calls: Calls, writer: Option<Chan>, devid: u32, broken: Option<Cut>,
                            log: seq<Entry>, sent: seq<byte>, ch: Chan, c: Command)
    requires WriterInv(calls, writer) && SentInv(calls, writer, devid, broken, log, sent)
    requires ch < |calls| && calls[ch].pc.Writing? && c == Command(calls[ch].pc.seqnum, devid, calls[ch].call)
    ensures SentInv(Move(calls, ch, Failed(calls[ch].pc.seqnum)), writer, devid,
                    if broken.None? then Some(Cut(c, calls[ch].pc.done)) else broken, log, sent)
  {
    hide Command.AsBytes, AllBytes;
    CutMove(calls, devid, broken, ch, Failed(calls[ch].pc.seqnum));
    assert Move(calls, ch, Failed(calls[ch].pc.seqnum))[ch].call == c.call;
    assert writer == Some(ch);
  }

  lemma BeginKeepsSent(calls: Calls, writer: Option<Chan>, devid: u32, broken: Option<Cut>,
                       log: seq<Entry>, sent: seq<byte>, c: CallState)
    requires WriterInv(calls, writer) && SentInv(calls, writer, devid, broken, log, sent) && c.pc.Calling?
    ensures SentInv(calls + [c], writer, devid, broken, log, sent)
  {
    hide Command.AsBytes, AllBytes;
    assert forall ch | 0 <= ch < |calls| :: (calls + [c])[ch] == calls[ch];
  }

  lemma ThreadKeepsSent(s: State, step: Step)
    requires Inv(s) && WireInv(s) && ThreadEnabled(s, step)
    ensures var u := DoThread(s, step); SentInv(u.calls, u.writer, u.devid, u.broken, u.log, u.sent)
  {
    hide IssuedInv, PendingInv, AnswersInv, CarriedInv, SenderInv, MailInv, ReturnedInv, WaitingInv, SendsInv,
         SentInv, LogInv, Command.AsBytes, AllBytes;
    var u := DoThread(s, step);
    match step
    case Spawn(_, _) =>
    case Begin(t, call) =>
      BeginKeepsSent(s.calls, s.writer, s.devid, s.broken, s.log, s.sent, CallState(t, call, Calling));
    case WriteSome(ch, n) => WriteSomeKeepsSent(s, ch, n);
    case WriteFails(ch) =>
      WriteFailsKeepsSent(s.calls, s.writer, s.devid, s.broken, s.log, s.sent, ch, s.CommandOf(ch));
    case Resume(_, _) =>
    case LockWriter(ch) =>
      OtherMoveKeepsSent(s.calls, s.writer, u.writer, s.devid, s.broken, s.log, s.sent, ch, u.Pc(ch));
    case Number(ch) =>
      OtherMoveKeepsSent(s.calls, s.writer, u.writer, s.devid, s.broken, s.log, s.sent, ch, u.Pc(ch));
    case RegisterCall(ch) =>
      OtherMoveKeepsSent(s.calls, s.writer, u.writer, s.devid, s.broken, s.log, s.sent, ch, u.Pc(ch));
    case RollBack(ch) =>
      OtherMoveKeepsSent(s.calls, s.writer, u.writer, s.devid, s.broken, s.log, s.sent, ch, u.Pc(ch));
    case Insert(ch) =>
      OtherMoveKeepsSent(s.calls, s.writer, u.writer, s.devid, s.broken, s.log, s.sent, ch, u.Pc(ch));
    case TakeMail(ch) =>
      OtherMoveKeepsSent(s.calls, s.writer, u.writer, s.devid, s.broken, s.log, s.sent, ch, u.Pc(ch));
  }

  /** Neither the reader nor the server touches the calls or the outgoing stream. */
  ghost predicate SameCalls(s: State, u: State) {
    && u.calls == s.calls && u.writer == s.writer && u.devid == s.devid && u.issued == s.issued
    && u.threads == s.threads && u.next == s.next
    && u.broken == s.broken && u.log == s.log && u.sent == s.sent
  }

  lemma OthersLeaveWire(s: State, step: Step)
    requires Enabled(s, step) && !ThreadEnabled(s, step)
    ensures SameCalls(s, Do(s, step))
  {
    hide ThreadEnabled;
    if ReaderEnabled(s, step) {
      ReaderLeavesWire(s, step);
    } else {
      ServerLeavesWire(s, step);
    }
  }

  lemma ReaderLeavesWire(s: State, step: Step)
    requires ReaderEnabled(s, step)
    ensures SameCalls(s, DoReader(s, step))
  {
    hide U32At, RetSubmitFrom, RetUnlinkFrom, SettleUnlink, SameCalls;
    var u := DoReader(s, step);
    match step
    case ReadHeader => ReadHeaderLeavesWire(s);
    case LookupPending => LookupLeavesWire(s);
    case _ => OnlyReader(s, u);
  }

  lemma OnlyReader(s: State, u: State)
    requires u == s.(shared := u.shared, bridge := u.bridge, mail := u.mail, reader := u.reader, inp := u.inp,
                     sends := u.sends, answers := u.answers, lost := u.lost, cancelled := u.cancelled, taken := u.taken)
    ensures SameCalls(s, u)
  {}

  lemma ReadHeaderLeavesWire(s: State)
    requires ReaderEnabled(s, ReadHeader)
    ensures SameCalls(s, DoReader(s, ReadHeader))
  {
    hide U32At, RetSubmitFrom, RetUnlinkFrom, SameCalls;
    OnlyReader(s, DoReader(s, ReadHeader));
  }

  lemma LookupLeavesWire(s: State)
    requires ReaderEnabled(s, LookupPending)
    ensures SameCalls(s, DoReader(s, LookupPending))
  {
    hide SameCalls;
    OnlyReader(s, DoReader(s, LookupPending));
  }

  lemma ServerLeavesWire(s: State, step: Step)
    requires ServerEnabled(s, step)
    ensures SameCalls(s, DoServer(s, step))
  {
    hide Reply.AsBytes;
  }

  lemma StepKeepsWire(s: State, step: Step)
    requires Inv(s) && WireInv(s) && Enabled(s, step)
    ensures WireInv(Do(s, step))
  {
    hide Inv, SentInv, LogInv, DoThread, DoReader, DoServer, ThreadEnabled, ReaderEnabled, ServerEnabled;
    if ThreadEnabled(s, step) {
      ThreadKeepsLog(s, step);
      ThreadKeepsSent(s, step);
    } else {
      OthersLeaveWire(s, step);
    }
  }

  lemma {:induction false} RunKeepsWire(s: State, steps: seq<Step>)
    requires Inv(s) && WireInv(s) && Run(s, steps).Some?
    ensures WireInv(Run(s, steps).value)
    decreases |steps|
  {
    hide Inv, WireInv;
    if steps != [] {
      StepKeeps(s, steps[0]);
      StepKeepsWire(s, steps[0]);
      RunKeepsWire(Do(s, steps[0]), steps[1..]);
    }
  }
}
