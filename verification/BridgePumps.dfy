/** The endpoint loops end to end: what goes out on the wire for a thread is what it read from the
    gadget, and what it writes to the gadget is what its own submissions were answered with. */
module BridgePumps {
  import opened Bytes
  import opened Protocol
  import opened Wire
  import opened Commands
  import opened Responses
  import opened BridgeSystem
  import opened BridgeSafety
  import opened BridgeAccount

  /** The commands thread `t` has put on the wire, in order. */
  function Own(log: seq<Entry>, t: Tid): (own: seq<Command>) {
    if log == [] then []
    else Own(log[..|log| - 1], t) + if log[|log| - 1].tid == t then [log[|log| - 1].command] else []
  }

  function Data(c: Command): seq<byte> {
    if c.call.SubmitCall? then c.call.data else []
  }

  function Datas(cs: seq<Command>): (ds: seq<seq<byte>>)
    ensures |ds| == |cs|
    ensures forall k | 0 <= k < |cs| :: ds[k] == Data(cs[k])
  {
    seq(|cs|, k requires 0 <= k < |cs| => Data(cs[k]))
  }

  /** Where a thread is with respect to its current call. */
  datatype Stage = Between | Before(call: Call) | After(seqnum: u32) | Over

  function StageOf(th: Thread, calls: Calls): Stage {
    match th.status
    case Ready => Between
    case Exited => Over
    case InCall(ch) =>
      if ch >= |calls| then Over
      else if calls[ch].pc.HasSeqnum() && calls[ch].pc.Complete() then After(calls[ch].pc.seqnum)
      else Before(calls[ch].call)
  }

  /** The first `n` commands have been answered with status 0. */
  ghost predicate AllGood(own: seq<Command>, n: int, answers: map<u32, RetSubmit>) {
    forall k | 0 <= k < n && k < |own| :: own[k].seqnum in answers && answers[own[k].seqnum].status == 0
  }

  /** An OUT loop goes round again only after a good answer, so nothing follows a failure. */
  ghost predicate OutOk(th: Thread, stage: Stage, own: seq<Command>, answers: map<u32, RetSubmit>)
    requires th.kind.OutPump?
  {
    match stage
    case Between => th.packets == Datas(own) && AllGood(own, |own|, answers)
    case Before(call) =>
      th.kind.MayCall(call) && th.packets == Datas(own) + [call.data] && AllGood(own, |own|, answers)
    case After(q) =>
      th.packets == Datas(own) && |own| > 0 && own[|own| - 1].seqnum == q && AllGood(own, |own| - 1, answers)
    case Over =>
      && (th.packets == Datas(own) || (exists p :: th.packets == Datas(own) + [p] && AllGood(own, |own|, answers)))
      && AllGood(own, |own| - 1, answers)
  }

  /** The `k`-th payload written is the data of the good response to the thread's `k`-th submission. */
  ghost predicate Fed(th: Thread, own: seq<Command>, answers: map<u32, RetSubmit>) {
    |th.payloads| <= |own| &&
    forall k | 0 <= k < |th.payloads| ::
      && own[k].seqnum in answers && answers[own[k].seqnum].status == 0
      && answers[own[k].seqnum].data == th.payloads[k]
  }

  ghost predicate InOk(th: Thread, stage: Stage, own: seq<Command>, answers: map<u32, RetSubmit>) {
    && Fed(th, own, answers)
    && match stage
       case Between => |own| == |th.payloads|
       case Before(call) => |own| == |th.payloads| && th.kind.MayCall(call)
       case After(q) => |own| == |th.payloads| + 1 && own[|th.payloads|].seqnum == q
       case Over => |own| <= |th.payloads| + 1
  }

  ghost predicate PumpOk(th: Thread, stage: Stage, own: seq<Command>, answers: map<u32, RetSubmit>) {
    && (!th.kind.Caller? ==> forall k | 0 <= k < |own| :: th.kind.MayCall(own[k].call))
    && (th.kind.OutPump? ==> OutOk(th, stage, own, answers))
    && (th.kind.InPump? ==> InOk(th, stage, own, answers))
  }

  ghost predicate PumpInv(threads: map<Tid, Thread>, calls: Calls, log: seq<Entry>, answers: map<u32, RetSubmit>) {
    && (forall t | t in threads :: PumpOk(threads[t], StageOf(threads[t], calls), Own(log, t), answers))
    && (forall t | t !in threads :: Own(log, t) == [])
  }

  // --- Steps that do not touch a thread's wire ---

  lemma PumpMove(threads: map<Tid, Thread>, calls: Calls, log: seq<Entry>, answers: map<u32, RetSubmit>, ch: Chan,
                 pc: Pc)
    requires PumpInv(threads, calls, log, answers) && ch < |calls|
    requires !pc.Complete() == !calls[ch].pc.Complete() && (pc.Complete() ==> pc.seqnum == calls[ch].pc.seqnum)
    ensures PumpInv(threads, Move(calls, ch, pc), log, answers)
  {
    forall t | t in threads
      ensures StageOf(threads[t], Move(calls, ch, pc)) == StageOf(threads[t], calls)
    {}
  }

  lemma PumpPosts(threads: map<Tid, Thread>, calls: Calls, log: seq<Entry>, answers: map<u32, RetSubmit>,
                  ch: Chan, pc: Pc, c: Command)
    requires PumpInv(threads, calls, log, answers) && ThreadInv(threads, calls)
    requires ch < |calls| && calls[ch].pc.Writing? && pc.Complete() && pc.seqnum == c.seqnum && c.call == calls[ch].call
    ensures PumpInv(threads, Move(calls, ch, pc), log + [Entry(calls[ch].tid, c)], answers)
  {
    var me := calls[ch].tid;
    var calls', log' := Move(calls, ch, pc), log + [Entry(me, c)];
    assert log'[..|log'| - 1] == log;
    assert ThreadOk(threads, calls[ch], ch);
    forall t | t in threads
      ensures PumpOk(threads[t], StageOf(threads[t], calls'), Own(log', t), answers)
    {
      if t == me {
        Extended(threads[t], Own(log, t), c, answers);
      } else {
        assert StageOf(threads[t], calls') == StageOf(threads[t], calls);
        assert Own(log', t) == Own(log, t);
      }
    }
  }

  lemma Extended(th: Thread, own: seq<Command>, c: Command, answers: map<u32, RetSubmit>)
    requires PumpOk(th, Before(c.call), own, answers)
    ensures PumpOk(th, After(c.seqnum), own + [c], answers)
  {
    assert Datas(own + [c]) == Datas(own) + [Data(c)];
  }

  lemma PumpBegins(s: State, t: Tid, call: Call)
    requires PumpInv(s.threads, s.calls, s.log, s.answers) && ThreadInv(s.threads, s.calls)
    requires ThreadEnabled(s, Begin(t, call))
    ensures var u := DoThread(s, Begin(t, call)); PumpInv(u.threads, u.calls, u.log, u.answers)
  {
    var u := DoThread(s, Begin(t, call));
    forall x | x in u.threads
      ensures PumpOk(u.threads[x], StageOf(u.threads[x], u.calls), Own(u.log, x), u.answers)
    {
      assert PumpOk(s.threads[x], StageOf(s.threads[x], s.calls), Own(s.log, x), s.answers);
      if x == t {
        assert StageOf(u.threads[x], u.calls) == Before(call);
      } else {
        assert StageOf(u.threads[x], u.calls) == StageOf(s.threads[x], s.calls);
      }
    }
  }

  lemma PumpResumes(s: State, t: Tid, ok: bool)
    requires Inv(s) && PumpInv(s.threads, s.calls, s.log, s.answers) && ThreadEnabled(s, Resume(t, ok))
    ensures var u := DoThread(s, Resume(t, ok)); PumpInv(u.threads, u.calls, u.log, u.answers)
  {
    hide PendingInv, AnswersInv, CarriedInv, SenderInv, MailInv, WaitingInv, SendsInv, IssuedInv, WriterInv;
    var u := DoThread(s, Resume(t, ok));
    forall x | x in u.threads
      ensures PumpOk(u.threads[x], StageOf(u.threads[x], u.calls), Own(u.log, x), u.answers)
    {
      assert PumpOk(s.threads[x], StageOf(s.threads[x], s.calls), Own(s.log, x), s.answers);
      if x == t {
        ResumedOk(s.threads[x], u.threads[x], s.calls, Own(s.log, x), s.answers, s.reader.Drains(), ok);
      }
    }
  }

  lemma ResumedOk(th: Thread, th': Thread, calls: Calls, own: seq<Command>, answers: map<u32, RetSubmit>, drains: bool,
                  ok: bool)
    requires ReturnedInv(calls, answers, drains) && PumpOk(th, StageOf(th, calls), own, answers)
    requires th.status.InCall? && th.status.ch < |calls| && calls[th.status.ch].pc.Returned?
    requires var r := calls[th.status.ch].pc.result;
             th' == match th.kind
                    case Caller => th.(status := Ready)
                    case OutPump(_, _) => th.(status := if r.Good() then Ready else Exited)
                    case InPump(_, _) =>
                      if r.Good() && ok then th.(status := Ready, payloads := th.payloads + [r.ret.data])
                      else th.(status := Exited)
    ensures PumpOk(th', StageOf(th', calls), own, answers)
  {
    var pc := calls[th.status.ch].pc;
    if pc.result.Good() {
      assert GoodResult(pc.seqnum, pc.result, answers, drains);
    }
  }

  lemma ThreadKeepsPumps(s: State, step: Step)
    requires Inv(s) && ThreadInv(s.threads, s.calls) && PumpInv(s.threads, s.calls, s.log, s.answers)
    requires ThreadEnabled(s, step)
    ensures var u := DoThread(s, step); PumpInv(u.threads, u.calls, u.log, u.answers)
  {
    hide PendingInv, AnswersInv, CarriedInv, SenderInv, ReturnedInv, WaitingInv, SendsInv, IssuedInv, WriterInv,
         PumpInv, ThreadInv, Command.AsBytes, MailInv;
    var u := DoThread(s, step);
    match step
    case Spawn(t, kind) => PumpSpawns(s, t, kind);
    case Begin(t, call) => PumpBegins(s, t, call);
    case Resume(t, ok) => PumpResumes(s, t, ok);
    case WriteSome(ch, n) => PumpWrites(s, ch, n);
    case TakeMail(ch) => PumpTakesMail(s, ch);
    case LockWriter(ch) => PumpMove(s.threads, s.calls, s.log, s.answers, ch, u.calls[ch].pc);
    case Number(ch) => PumpMove(s.threads, s.calls, s.log, s.answers, ch, u.calls[ch].pc);
    case RegisterCall(ch) => PumpMove(s.threads, s.calls, s.log, s.answers, ch, u.calls[ch].pc);
    case WriteFails(ch) => PumpMove(s.threads, s.calls, s.log, s.answers, ch, u.calls[ch].pc);
    case RollBack(ch) => PumpMove(s.threads, s.calls, s.log, s.answers, ch, u.calls[ch].pc);
    case Insert(ch) => PumpMove(s.threads, s.calls, s.log, s.answers, ch, u.calls[ch].pc);
  }

  lemma PumpSpawns(s: State, t: Tid, kind: Kind)
    requires PumpInv(s.threads, s.calls, s.log, s.answers) && t !in s.threads
    ensures PumpInv(s.threads[t := Thread(kind, Ready, [], [])], s.calls, s.log, s.answers)
  {
    assert Datas([]) == [];
  }

  lemma PumpTakesMail(s: State, ch: Chan)
    requires MailInv(s.calls, s.mail, s.answers, s.reader.Drains()) && PumpInv(s.threads, s.calls, s.log, s.answers)
    requires ch < |s.calls| && s.Pc(ch).Waiting? && ch in s.mail
    ensures PumpInv(s.threads, Move(s.calls, ch, Returned(s.Pc(ch).seqnum, s.mail[ch])), s.log, s.answers)
  {
    hide PumpInv;
    assert GoodResult(s.Pc(ch).seqnum, s.mail[ch], s.answers, s.reader.Drains());
    PumpMove(s.threads, s.calls, s.log, s.answers, ch, Returned(s.Pc(ch).seqnum, s.mail[ch]));
  }

  lemma PumpWrites(s: State, ch: Chan, n: nat)
    requires ThreadInv(s.threads, s.calls) && PumpInv(s.threads, s.calls, s.log, s.answers)
    requires ThreadEnabled(s, WriteSome(ch, n))
    ensures var u := DoThread(s, WriteSome(ch, n)); PumpInv(u.threads, u.calls, u.log, u.answers)
  {
    hide PumpInv, ThreadInv, Command.AsBytes;
    var u := DoThread(s, WriteSome(ch, n));
    if s.Pc(ch).done + n < |s.CommandOf(ch).AsBytes()| {
      PumpMove(s.threads, s.calls, s.log, s.answers, ch, u.calls[ch].pc);
    } else {
      PumpPosts(s.threads, s.calls, s.log, s.answers, ch, u.calls[ch].pc, s.CommandOf(ch));
    }
  }

  /** The reader only adds answers. */
  lemma ReaderKeepsPumps(s: State, step: Step)
    requires Inv(s) && PumpInv(s.threads, s.calls, s.log, s.answers) && ReaderEnabled(s, step)
    ensures var u := DoReader(s, step); PumpInv(u.threads, u.calls, u.log, u.answers)
  {
    hide AnswersInv, SenderInv, ReturnedInv, WaitingInv, SendsInv, IssuedInv, WriterInv,
         PumpInv, U32At, RetSubmitFrom, RetUnlinkFrom, MailInv, SettleUnlink;
    match step
    case LookupPending =>
      var q := s.reader.submit.seqnum;
      if q in s.shared.pending {
        assert PendingOk(s.calls, s.issued, q, s.shared.pending[q], s.answers, s.reader.Drains());
        MoreAnswers(s.threads, s.calls, s.log, s.answers, AfterLookup(s.reader.submit, Some(s.shared.pending[q])));
      }
    case ReadPayload =>
      MoreAnswers(s.threads, s.calls, s.log, s.answers, DoReadPayload(s).reader);
    case _ =>
  }

  lemma MoreAnswers(threads: map<Tid, Thread>, calls: Calls, log: seq<Entry>, answers: map<u32, RetSubmit>,
                    reader: Reader)
    requires PumpInv(threads, calls, log, answers)
    requires reader.AtDeliver? ==> reader.ret.seqnum !in answers
    ensures PumpInv(threads, calls, log, Answered(answers, reader))
  {
    forall t | t in threads
      ensures PumpOk(threads[t], StageOf(threads[t], calls), Own(log, t), Answered(answers, reader))
    {
      assert PumpOk(threads[t], StageOf(threads[t], calls), Own(log, t), answers);
    }
  }

  lemma StepKeepsPumps(s: State, step: Step)
    requires Inv(s) && ThreadInv(s.threads, s.calls) && PumpInv(s.threads, s.calls, s.log, s.answers)
    requires Enabled(s, step)
    ensures var u := Do(s, step); PumpInv(u.threads, u.calls, u.log, u.answers)
  {
    hide Inv, ThreadInv, PumpInv, ThreadEnabled, ReaderEnabled, DoThread, DoReader, Reply.AsBytes;
    if ThreadEnabled(s, step) {
      ThreadKeepsPumps(s, step);
    } else if ReaderEnabled(s, step) {
      ReaderKeepsPumps(s, step);
    }
  }

  lemma {:induction false} RunKeepsPumps(s: State, steps: seq<Step>)
    requires Inv(s) && BookInv(s) && PumpInv(s.threads, s.calls, s.log, s.answers) && Run(s, steps).Some?
    ensures var u := Run(s, steps).value; PumpInv(u.threads, u.calls, u.log, u.answers)
    decreases |steps|
  {
    hide Inv, BookInv, PumpInv;
    if steps != [] {
      BookThreads(s);
      StepKeeps(s, steps[0]);
      StepKeepsBook(s, steps[0]);
      StepKeepsPumps(s, steps[0]);
      RunKeepsPumps(Do(s, steps[0]), steps[1..]);
    }
  }

  lemma BookThreads(s: State)
    requires BookInv(s)
    ensures ThreadInv(s.threads, s.calls)
  {}
}
