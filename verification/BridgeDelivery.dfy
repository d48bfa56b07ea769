/** Conforming runs, end to end: what a caller is given is what the server sent for its submission. */
module BridgeDelivery {
  import opened Bytes
  import opened Protocol
  import opened Wire
  import opened Commands
  import opened Responses
  import opened BridgeSystem
  import opened BridgeSafety
  import opened BridgeWire
  import opened BridgeAccount
  import opened BridgePumps
  import opened BridgeConforming
  import opened BridgeRuns

  /** The response says what the reply says. */
  predicate Carries(r: Reply, ret: RetSubmit) {
    && r.SubmitReply? && r.submit.seqnum == ret.seqnum && r.submit.status == ret.status
    && r.submit.actualLength == ret.actualLength && r.data == ret.data
  }

  /** Reply `i` is the server's answer to submission `q`. */
  predicate Answers(served: seq<Served>, i: nat, q: u32) {
    i < |served| && served[i].settles == Some(q) && served[i].reply.SubmitReply?
  }

  ghost predicate ServedBefore(served: seq<Served>, n: nat, q: u32, ret: RetSubmit) {
    exists i | 0 <= i < n :: Answers(served, i, q) && Carries(served[i].reply, ret)
  }

  /** Every recorded response is what one of the replies read so far says. */
  ghost predicate DeliveryInv(answers: map<u32, RetSubmit>, served: seq<Served>, taken: nat) {
    forall q | q in answers :: ServedBefore(served, taken, q, answers[q])
  }

  // --- Every step keeps it ---

  lemma MoreServed(answers: map<u32, RetSubmit>, served: seq<Served>, taken: nat, more: seq<Served>, taken': nat)
    requires DeliveryInv(answers, served, taken) && taken <= taken'
    ensures DeliveryInv(answers, served + more, taken')
  {
    forall q | q in answers
      ensures ServedBefore(served + more, taken', q, answers[q])
    {
      var i :| 0 <= i < taken && Answers(served, i, q) && Carries(served[i].reply, answers[q]);
      assert (served + more)[i] == served[i];
      assert Answers(served + more, i, q);
    }
  }

  lemma OneMoreAnswer(answers: map<u32, RetSubmit>, served: seq<Served>, taken: nat, ret: RetSubmit)
    requires DeliveryInv(answers, served, taken) && 0 < taken
    requires Answers(served, taken - 1, ret.seqnum) && Carries(served[taken - 1].reply, ret)
    ensures DeliveryInv(answers[ret.seqnum := ret], served, taken)
  {}

  /** The reply being read answers the submission its header names. */
  lemma CurrentReply(s: State)
    requires ServedInv(s.calls, s.issued, s.served) && IncomingInv(s.reader, s.Incoming(), s.served, s.taken)
    requires s.reader.AtLookup? || s.reader.AtPayload?
    ensures 0 < s.taken && Answers(s.served, s.taken - 1, s.reader.submit.seqnum)
    ensures s.served[s.taken - 1].reply.submit == s.reader.submit
  {
    hide RepliesBytes;
    assert ServedOk(s.calls, s.issued, s.served[s.taken - 1]);
  }

  lemma LookupRecords(s: State)
    requires ReaderEnabled(s, LookupPending) && s.reader.submit.seqnum in s.shared.pending
    ensures var u, direction := DoReader(s, LookupPending), s.shared.pending[s.reader.submit.seqnum];
            && u.served == s.served && u.taken == s.taken
            && u.answers == Answered(s.answers, AfterLookup(s.reader.submit, Some(direction)))
  {
    hide AfterLookup, Answered;
  }

  lemma LookupDelivers(s: State)
    requires Inv(s) && ProtocolInv(s) && ReaderEnabled(s, LookupPending)
    requires DeliveryInv(s.answers, s.served, s.taken)
    ensures var u := DoReader(s, LookupPending); DeliveryInv(u.answers, u.served, u.taken)
  {
    hide WriterInv, IssuedInv, PendingInv, AnswersInv, CarriedInv, SenderInv, MailInv, ReturnedInv, WaitingInv,
         SendsInv, FramedInv, ServedInv, IncomingInv, ExactInv, DeliveryInv, DoReader;
    CurrentReply(s);
    LookupFinds(s);
    LookupFrames(s);
    LookupRecords(s);
    var reader := AfterLookup(s.reader.submit, Some(s.shared.pending[s.reader.submit.seqnum]));
    if reader.AtDeliver? {
      OneMoreAnswer(s.answers, s.served, s.taken, reader.ret);
    }
  }

  lemma PayloadDelivers(s: State)
    requires ProtocolInv(s) && ReaderEnabled(s, ReadPayload) && DeliveryInv(s.answers, s.served, s.taken)
    ensures var u := DoReader(s, ReadPayload); DeliveryInv(u.answers, u.served, u.taken)
  {
    CurrentReply(s);
    PayloadKeepsIncoming(s);
    hide FramedInv, ServedInv, IncomingInv, ExactInv, DeliveryInv;
    OneMoreAnswer(s.answers, s.served, s.taken, DoReader(s, ReadPayload).reader.ret);
  }

  lemma ReaderKeepsDelivery(s: State, step: Step)
    requires Inv(s) && ProtocolInv(s) && ReaderEnabled(s, step) && DeliveryInv(s.answers, s.served, s.taken)
    ensures var u := DoReader(s, step); DeliveryInv(u.answers, u.served, u.taken)
  {
    hide Inv, ProtocolInv, DeliveryInv, SettleUnlink, U32At, RetSubmitFrom, RetUnlinkFrom;
    match step
    case LookupPending => LookupDelivers(s);
    case ReadPayload => PayloadDelivers(s);
    case ReadHeader =>
      MoreServed(s.answers, s.served, s.taken, [], s.taken + 1);
      assert s.served + [] == s.served;
    case _ =>
  }

  lemma ServerKeepsDelivery(s: State, step: Step)
    requires ServerEnabled(s, step) && DeliveryInv(s.answers, s.served, s.taken)
    ensures var u := DoServer(s, step); DeliveryInv(u.answers, u.served, u.taken)
  {
    hide DeliveryInv, Reply.AsBytes;
    if step.ServerReply? {
      MoreServed(s.answers, s.served, s.taken, [Served(step.reply, step.settles)], s.taken);
    }
  }

  lemma ThreadKeepsDelivery(s: State, step: Step)
    requires ThreadEnabled(s, step) && DeliveryInv(s.answers, s.served, s.taken)
    ensures var u := DoThread(s, step); DeliveryInv(u.answers, u.served, u.taken)
  {
    hide DeliveryInv, Command.AsBytes;
  }

  lemma StepKeepsDelivery(s: State, step: Step)
    requires Inv(s) && ProtocolInv(s) && Enabled(s, step) && DeliveryInv(s.answers, s.served, s.taken)
    ensures var u := Do(s, step); DeliveryInv(u.answers, u.served, u.taken)
  {
    hide Inv, ProtocolInv, DeliveryInv, ThreadEnabled, ReaderEnabled, ServerEnabled, DoThread, DoReader, DoServer;
    if ThreadEnabled(s, step) {
      ThreadKeepsDelivery(s, step);
    } else if ReaderEnabled(s, step) {
      ReaderKeepsDelivery(s, step);
    } else {
      ServerKeepsDelivery(s, step);
    }
  }

  lemma {:induction false} RunKeepsDelivery(s: State, steps: seq<Step>)
    requires Inv(s) && WireInv(s) && ProtocolInv(s) && ConformingRun(s, steps)
    requires DeliveryInv(s.answers, s.served, s.taken)
    ensures Run(s, steps).Some?
    ensures var u := Run(s, steps).value; ProtocolInv(u) && DeliveryInv(u.answers, u.served, u.taken)
    decreases |steps|
  {
    hide Inv, WireInv, ProtocolInv, DeliveryInv, Enabled, Do, Conforms;
    if steps != [] {
      StepKeeps(s, steps[0]);
      StepKeepsWire(s, steps[0]);
      StepKeepsProtocol(s, steps[0]);
      StepKeepsDelivery(s, steps[0]);
      RunKeepsDelivery(Do(s, steps[0]), steps[1..]);
    }
  }

  lemma DeliveryReachable(devid: u32, steps: seq<Step>, s: State)
    requires ConformingRun(Init(devid), steps) && Reached(devid, steps, s)
    ensures ProtocolInv(s) && DeliveryInv(s.answers, s.served, s.taken)
  {
    InitialState(devid);
    assert DeliveryInv(Init(devid).answers, [], 0);
    hide Inv, WireInv, BookInv, PumpInv, ProtocolInv, DeliveryInv;
    RunKeepsDelivery(Init(devid), steps);
  }

  // --- What callers and endpoint loops get ---

  /** A response that is recorded for `q` is, field by field and byte by byte, the one reply that settles it. */
  lemma AnswerIsServed(devid: u32, steps: seq<Step>, s: State, q: u32) returns (i: nat)
    requires ConformingRun(Init(devid), steps) && Reached(devid, steps, s) && q in s.answers
    ensures i < s.taken && Answers(s.served, i, q) && Carries(s.served[i].reply, s.answers[q])
    ensures forall j | 0 <= j < |s.served| && s.served[j].settles == Some(q) :: j == i
  {
    DeliveryReachable(devid, steps, s);
    hide Reached, ConformingRun, FramedInv, IncomingInv, ExactInv, ServedOk, Carries;
    assert ServedBefore(s.served, s.taken, q, s.answers[q]);
    i :| 0 <= i < s.taken && Answers(s.served, i, q) && Carries(s.served[i].reply, s.answers[q]);
    assert forall j | 0 <= j < |s.served| && s.served[j].settles == Some(q) :: j == i;
  }

  /** A call that returns a response returns exactly the status, length and data of the one RET_SUBMIT that the
      server sent for its number. */
  lemma CallersGetWhatWasServed(devid: u32, steps: seq<Step>, s: State, ch: Chan) returns (i: nat)
    requires ConformingRun(Init(devid), steps) && Reached(devid, steps, s)
    requires ch < |s.calls| && s.Pc(ch).Returned? && s.Pc(ch).result.Delivered?
    ensures i < s.taken && Answers(s.served, i, s.Pc(ch).seqnum) && Carries(s.served[i].reply, s.Pc(ch).result.ret)
    ensures forall j | 0 <= j < |s.served| && s.served[j].settles == Some(s.Pc(ch).seqnum) :: j == i
  {
    DeliveredIsRecorded(devid, steps, s, ch);
    hide *;
    i := AnswerIsServed(devid, steps, s, s.Pc(ch).seqnum);
  }

  lemma DeliveredIsRecorded(devid: u32, steps: seq<Step>, s: State, ch: Chan)
    requires Reached(devid, steps, s) && ch < |s.calls| && s.Pc(ch).Returned? && s.Pc(ch).result.Delivered?
    ensures s.Pc(ch).seqnum in s.answers && s.answers[s.Pc(ch).seqnum] == s.Pc(ch).result.ret
  {
    Reachable(devid, steps, s);
    hide Reached, WireInv, BookInv, PumpInv, WriterInv, IssuedInv, PendingInv, AnswersInv, CarriedInv, SenderInv,
         MailInv, WaitingInv, SendsInv;
    assert GoodResult(s.Pc(ch).seqnum, s.Pc(ch).result, s.answers, s.reader.Drains());
  }

  /** The `k`-th payload an IN loop has written to the gadget is the data of the server's reply, with status 0, to
      the `k`-th submission the loop has on the wire. */
  lemma PayloadsAreServed(devid: u32, steps: seq<Step>, s: State, t: Tid, k: nat) returns (i: nat)
    requires ConformingRun(Init(devid), steps) && Reached(devid, steps, s)
    requires t in s.threads && s.threads[t].kind.InPump? && k < |s.threads[t].payloads|
    ensures k < |Own(s.log, t)| && i < s.taken && Answers(s.served, i, Own(s.log, t)[k].seqnum)
    ensures s.served[i].reply.submit.status == 0 && s.served[i].reply.data == s.threads[t].payloads[k]
  {
    InEndpointFifo(devid, steps, s, t);
    hide Reached, ConformingRun, Own, Answers;
    i := AnswerIsServed(devid, steps, s, Own(s.log, t)[k].seqnum);
  }

  /** Every command of an OUT loop but the last, and the last too before the next packet is read, has been
      answered by the server with status 0. */
  lemma OutCommandsAreServed(devid: u32, steps: seq<Step>, s: State, t: Tid, k: nat) returns (i: nat)
    requires ConformingRun(Init(devid), steps) && Reached(devid, steps, s)
    requires t in s.threads && s.threads[t].kind.OutPump? && k < |Own(s.log, t)|
    requires k + 1 < |s.threads[t].packets| || s.threads[t].status.Ready?
    ensures i < s.taken && Answers(s.served, i, Own(s.log, t)[k].seqnum)
    ensures s.served[i].reply.submit.status == 0
  {
    OutEndpointFifo(devid, steps, s, t);
    hide Reached, ConformingRun, Own, Answers;
    i := AnswerIsServed(devid, steps, s, Own(s.log, t)[k].seqnum);
  }
}
