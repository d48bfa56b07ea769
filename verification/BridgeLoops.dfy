/** The endpoint loops from one call to the next: what they call with, when they go round again, and why they
    stop (usbipdevirt/src/main.rs:190-246). */
module BridgeLoops {
  import opened Bytes
  import opened Protocol
  import opened Wire
  import opened Commands
  import opened Responses
  import opened BridgeSystem
  import opened BridgeSafety
  import opened BridgeAccount
  import opened BridgeRuns

  /** The remote device answered with success. */
  predicate Succeeded(r: Result) {
    r.Delivered? && r.ret.status == 0
  }

  // --- One round ---

  /** What a thread is after its call has returned. An OUT loop goes round again exactly when the call succeeded;
      an IN loop exactly when, besides, the gadget takes the data, which are then the next payload. A caller
      goes on in any case. Nothing but the thread changes. */
  lemma AfterResume(s: State, t: Tid, gadgetOk: bool)
    requires ThreadEnabled(s, Resume(t, gadgetOk))
    ensures var th, u := s.threads[t], DoThread(s, Resume(t, gadgetOk));
            var result := s.Pc(th.status.ch).result;
            var again := Succeeded(result) && (th.kind.InPump? ==> gadgetOk);
            && u == s.(threads := s.threads[t := u.threads[t]])
            && u.threads[t].kind == th.kind && u.threads[t].packets == th.packets
            && u.threads[t].status == (if th.kind.Caller? || again then Ready else Exited)
            && u.threads[t].payloads == (if th.kind.InPump? && again then th.payloads + [result.ret.data]
                                         else th.payloads)
  {}

  /** Whatever the result, a thread in a call that has returned can take note of it. */
  lemma ReturnedCanResume(s: State, t: Tid, gadgetOk: bool)
    requires t in s.threads && s.threads[t].status.InCall? && s.threads[t].status.ch < |s.calls|
    ensures ThreadEnabled(s, Resume(t, gadgetOk)) <==> s.Pc(s.threads[t].status.ch).Returned?
  {}

  /** What an endpoint loop can call with when it is ready, field by field. An IN loop asks for one packet of the
      endpoint's size; an OUT loop sends any packet up to that size, under its own length. */
  lemma LoopBeginsExactly(s: State, t: Tid, call: Call)
    requires t in s.threads && !s.threads[t].kind.Caller?
    ensures var kind := s.threads[t].kind;
            ThreadEnabled(s, Begin(t, call)) <==>
              && s.threads[t].status.Ready? && call.SubmitCall?
              && call.ep == kind.ep && call.transferFlags == 0 && call.setup == [0, 0, 0, 0, 0, 0, 0, 0]
              && call.interval == 0 && (call.direction.In? <==> kind.InPump?)
              && (kind.InPump? ==> call.data == [] && call.transferBufferLength == kind.maxPacket)
              && (kind.OutPump? ==> call.transferBufferLength == |call.data| <= kind.maxPacket)
  {}

  /** A thread that can call begins a call of its own, which queues for the writer; an OUT loop has then read
      the call's data from the gadget. */
  lemma BeginsCall(s: State, t: Tid, call: Call)
    requires ThreadEnabled(s, Begin(t, call))
    ensures var th, u := s.threads[t], DoThread(s, Begin(t, call));
            && u.calls == s.calls + [CallState(t, call, Calling)]
            && u.threads[t].kind == th.kind && u.threads[t].status == InCall(|s.calls|)
            && u.threads[t].packets == (if th.kind.OutPump? then th.packets + [call.data] else th.packets)
            && u.threads[t].payloads == th.payloads
            && u == s.(threads := s.threads[t := u.threads[t]], calls := u.calls)
  {}

  /** An endpoint loop that waits for a good answer takes it, and the next packet goes the same way. */
  lemma GoodAnswerGoesRound(s: State, t: Tid, ret: RetSubmit, next: Call)
    requires t in s.threads && !s.threads[t].kind.Caller? && s.threads[t].status.InCall?
    requires var ch := s.threads[t].status.ch;
             ch < |s.calls| && s.Pc(ch).Waiting? && ch in s.mail && s.mail[ch] == Delivered(ret) && ret.status == 0
    requires s.threads[t].kind.MayCall(next)
    ensures var th := s.threads[t];
            var run := Run(s, [TakeMail(th.status.ch), Resume(t, true), Begin(t, next)]);
            && run.Some? && |run.value.calls| == |s.calls| + 1
            && run.value.calls[|s.calls|] == CallState(t, next, Calling)
            && t in run.value.threads && run.value.threads[t].status == InCall(|s.calls|)
            && run.value.threads[t].packets == (if th.kind.OutPump? then th.packets + [next.data] else th.packets)
            && run.value.threads[t].payloads == (if th.kind.InPump? then th.payloads + [ret.data] else th.payloads)
  {
    hide Command.AsBytes, Kind.MayCall, Run;
    var ch := s.threads[t].status.ch;
    var s1 := Do(s, TakeMail(ch));
    assert s1.Pc(ch).Returned? && s1.Pc(ch).result == Delivered(ret);
    ReturnedCanResume(s1, t, true);
    AfterResume(s1, t, true);
    var s2 := Do(s1, Resume(t, true));
    BeginsCall(s2, t, next);
    var s3 := Do(s2, Begin(t, next));
    ThreeSteps(s, TakeMail(ch), Resume(t, true), Begin(t, next));
  }

  lemma ThreeSteps(s: State, a: Step, b: Step, c: Step)
    requires Enabled(s, a) && Enabled(Do(s, a), b) && Enabled(Do(Do(s, a), b), c)
    ensures Run(s, [a, b, c]) == Some(Do(Do(Do(s, a), b), c))
  {
    hide Enabled, Do;
    var s1 := Do(s, a);
    var s2 := Do(s1, b);
    var s3 := Do(s2, c);
    assert [c][1..] == [] && Run(s3, []) == Some(s3);
    assert Run(s2, [c]) == Some(s3);
    assert [b, c][1..] == [c];
    assert Run(s1, [b, c]) == Some(s3);
    assert [a, b, c][1..] == [b, c];
  }

  // --- Whole runs ---

  /** A call of thread `t` that did not succeed. */
  predicate FailedCall(calls: Calls, t: Tid, ch: Chan) {
    ch < |calls| && calls[ch].tid == t && calls[ch].pc.Returned? && !Succeeded(calls[ch].pc.result)
  }

  ghost predicate SomeFailed(calls: Calls, t: Tid) {
    exists ch :: FailedCall(calls, t, ch)
  }

  /** An endpoint loop that has stopped has had a call fail, or an IN loop its data refused by the gadget; and
      unless it has stopped, only the call it is still in can have failed. */
  ghost predicate LoopOk(th: Thread, calls: Calls, t: Tid, past: seq<Step>) {
    && (th.status.Exited? ==>
          !th.kind.Caller? && (SomeFailed(calls, t) || (th.kind.InPump? && Resume(t, false) in past)))
    && (!th.kind.Caller? && !th.status.Exited? ==>
          forall ch | FailedCall(calls, t, ch) :: th.status == InCall(ch))
  }

  ghost predicate LoopsOk(threads: map<Tid, Thread>, calls: Calls, past: seq<Step>) {
    forall t | t in threads :: LoopOk(threads[t], calls, t, past)
  }

  /** A call that has not returned does a step. */
  lemma LoopsMove(threads: map<Tid, Thread>, calls: Calls, past: seq<Step>, ch: Chan, pc: Pc)
    requires LoopsOk(threads, calls, past) && ThreadInv(threads, calls) && ch < |calls| && !calls[ch].pc.Returned?
    ensures LoopsOk(threads, Move(calls, ch, pc), past)
  {
    var calls' := Move(calls, ch, pc);
    forall t | t in threads
      ensures LoopOk(threads[t], calls', t, past)
    {
      assert LoopOk(threads[t], calls, t, past);
      assert forall c | c != ch :: FailedCall(calls', t, c) <==> FailedCall(calls, t, c);
      assert !FailedCall(calls, t, ch) && ThreadOk(threads, calls[ch], ch);
      if SomeFailed(calls, t) {
        var c :| FailedCall(calls, t, c);
        assert FailedCall(calls', t, c);
      }
    }
  }

  lemma LoopsSpawn(threads: map<Tid, Thread>, calls: Calls, past: seq<Step>, t: Tid, kind: Kind)
    requires LoopsOk(threads, calls, past) && ThreadInv(threads, calls) && t !in threads
    ensures LoopsOk(threads[t := Thread(kind, Ready, [], [])], calls, past)
  {
    var threads' := threads[t := Thread(kind, Ready, [], [])];
    forall x | x in threads'
      ensures LoopOk(threads'[x], calls, x, past)
    {
      if x == t {
        forall ch | 0 <= ch < |calls|
          ensures !FailedCall(calls, t, ch)
        {
          assert ThreadOk(threads, calls[ch], ch);
        }
      } else {
        assert LoopOk(threads[x], calls, x, past);
      }
    }
  }

  lemma LoopsBegin(s: State, past: seq<Step>, t: Tid, call: Call)
    requires LoopsOk(s.threads, s.calls, past) && ThreadEnabled(s, Begin(t, call))
    ensures var u := DoThread(s, Begin(t, call)); LoopsOk(u.threads, u.calls, past)
  {
    BeginsCall(s, t, call);
    var u := DoThread(s, Begin(t, call));
    hide ThreadEnabled, DoThread;
    forall x | x in u.threads
      ensures LoopOk(u.threads[x], u.calls, x, past)
    {
      assert LoopOk(s.threads[x], s.calls, x, past);
      assert forall ch :: FailedCall(u.calls, x, ch) <==> FailedCall(s.calls, x, ch);
    }
  }

  lemma LoopsResume(s: State, past: seq<Step>, t: Tid, ok: bool)
    requires LoopsOk(s.threads, s.calls, past) && ThreadInv(s.threads, s.calls) && ThreadEnabled(s, Resume(t, ok))
    requires Resume(t, ok) in past
    ensures var u := DoThread(s, Resume(t, ok)); LoopsOk(u.threads, u.calls, past)
  {
    AfterResume(s, t, ok);
    var u, ch := DoThread(s, Resume(t, ok)), s.threads[t].status.ch;
    assert s.calls[ch].tid == t && s.calls[ch].pc.Returned?;
    hide ThreadEnabled, DoThread;
    forall x | x in u.threads
      ensures LoopOk(u.threads[x], u.calls, x, past)
    {
      assert LoopOk(s.threads[x], s.calls, x, past);
      if x == t {
        assert FailedCall(u.calls, t, ch) <==> !Succeeded(s.calls[ch].pc.result);
      }
    }
  }

  lemma LoopsLater(threads: map<Tid, Thread>, calls: Calls, past: seq<Step>, step: Step)
    requires LoopsOk(threads, calls, past)
    ensures LoopsOk(threads, calls, past + [step])
  {
    forall t | t in threads
      ensures LoopOk(threads[t], calls, t, past + [step])
    {
      assert LoopOk(threads[t], calls, t, past);
    }
  }

  lemma ThreadKeepsLoops(s: State, past: seq<Step>, step: Step)
    requires LoopsOk(s.threads, s.calls, past) && ThreadInv(s.threads, s.calls) && ThreadEnabled(s, step)
    requires step in past
    ensures var u := DoThread(s, step); LoopsOk(u.threads, u.calls, past)
  {
    hide LoopsOk, ThreadInv, Command.AsBytes;
    var u := DoThread(s, step);
    match step
    case Spawn(t, kind) => LoopsSpawn(s.threads, s.calls, past, t, kind);
    case Begin(t, call) => LoopsBegin(s, past, t, call);
    case Resume(t, ok) => LoopsResume(s, past, t, ok);
    case LockWriter(ch) => LoopsMove(s.threads, s.calls, past, ch, u.calls[ch].pc);
    case Number(ch) => LoopsMove(s.threads, s.calls, past, ch, u.calls[ch].pc);
    case RegisterCall(ch) => LoopsMove(s.threads, s.calls, past, ch, u.calls[ch].pc);
    case WriteSome(ch, n) => LoopsMove(s.threads, s.calls, past, ch, u.calls[ch].pc);
    case WriteFails(ch) => LoopsMove(s.threads, s.calls, past, ch, u.calls[ch].pc);
    case RollBack(ch) => LoopsMove(s.threads, s.calls, past, ch, u.calls[ch].pc);
    case Insert(ch) => LoopsMove(s.threads, s.calls, past, ch, u.calls[ch].pc);
    case TakeMail(ch) => LoopsMove(s.threads, s.calls, past, ch, u.calls[ch].pc);
  }

  lemma StepKeepsLoops(s: State, past: seq<Step>, step: Step)
    requires LoopsOk(s.threads, s.calls, past) && ThreadInv(s.threads, s.calls) && Enabled(s, step)
    ensures var u := Do(s, step); LoopsOk(u.threads, u.calls, past + [step])
  {
    hide LoopsOk, ThreadInv, ThreadEnabled, ReaderEnabled, ServerEnabled, DoThread, DoReader, DoServer;
    LoopsLater(s.threads, s.calls, past, step);
    if ThreadEnabled(s, step) {
      ThreadKeepsLoops(s, past + [step], step);
    } else if ReaderEnabled(s, step) {
      ReaderLeavesThreads(s, step);
    } else {
      ServerLeavesThreads(s, step);
    }
  }

  lemma {:induction false} RunKeepsLoops(s: State, past: seq<Step>, steps: seq<Step>)
    requires LoopsOk(s.threads, s.calls, past) && ThreadInv(s.threads, s.calls) && Run(s, steps).Some?
    ensures var u := Run(s, steps).value; LoopsOk(u.threads, u.calls, past + steps)
    decreases |steps|
  {
    hide LoopsOk, ThreadInv, Enabled, Do;
    if steps == [] {
      assert past + steps == past;
    } else {
      StepKeepsLoops(s, past, steps[0]);
      StepKeepsThreads(s, steps[0]);
      RunKeepsLoops(Do(s, steps[0]), past + [steps[0]], steps[1..]);
      assert past + [steps[0]] + steps[1..] == past + steps;
    }
  }

  /** An endpoint loop stops only for cause: a call of it failed or was answered with another status than 0, or,
      in an IN loop, the gadget refused the data. As long as every call it has made is good, it goes on. */
  lemma LoopsStopForCause(devid: u32, steps: seq<Step>, s: State, t: Tid)
    requires Reached(devid, steps, s) && t in s.threads
    ensures s.threads[t].kind.Caller? ==> !s.threads[t].status.Exited?
    ensures s.threads[t].kind.OutPump? ==> (s.threads[t].status.Exited? ==> SomeFailed(s.calls, t))
    ensures s.threads[t].kind.InPump? ==>
              (s.threads[t].status.Exited? ==> SomeFailed(s.calls, t) || Resume(t, false) in steps)
    ensures !s.threads[t].kind.Caller? && s.threads[t].status.Ready? ==> !SomeFailed(s.calls, t)
  {
    hide ThreadInv;
    InitialThreads(devid);
    RunKeepsLoops(Init(devid), [], steps);
    assert [] + steps == steps;
    assert LoopOk(s.threads[t], s.calls, t, steps);
  }

  lemma InitialThreads(devid: u32)
    ensures ThreadInv(Init(devid).threads, Init(devid).calls)
  {}

  // --- The queue for the writer ---

  /** A call that has begun gets the writer mutex whenever that is free, whoever else waits for it. */
  lemma FreeWriterIsTaken(s: State, ch: Chan)
    requires ch < |s.calls| && s.Pc(ch).Calling?
    ensures ThreadEnabled(s, LockWriter(ch)) <==> s.writer.None?
  {}
}
