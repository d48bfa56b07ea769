/** The steps of the bridge are the steps of the connection's halves: a turn under the writer mutex that
    nobody interrupts does what the writer half's send does, and the reader's steps for one response do
    what the reader half's receive does. */
module BridgeClient {
  import opened Bytes
  import opened Protocol
  import opened Wire
  import opened Commands
  import opened Responses
  import opened Connection
  import opened BridgeSystem

  /** The bridge's connection, on a transport that takes `room` more bytes. */
  function ConnOf(s: State, room: nat): Conn {
    Conn(s.devid, s.next, s.shared, s.sent, room, s.inp)
  }

  /** How a send ends for its caller. */
  predicate Ended(pc: Pc, answer: Answer, call: Call) {
    match answer
    case Allocated(q) => pc == if call.SubmitCall? then Written(q) else BridgeSystem.Returned(q, UnlinkSent)
    case WriteFailed => pc.RolledBack()
    case _ => false
  }

  lemma RunOne(s: State, step: Step, steps: seq<Step>)
    requires Enabled(s, step)
    ensures Run(s, [step] + steps) == Run(Do(s, step), steps)
  {
    hide Enabled, Do;
    assert ([step] + steps)[1..] == steps;
  }

  lemma RunLast(s: State, step: Step)
    requires Enabled(s, step)
    ensures Run(s, [step]) == Some(Do(s, step))
  {
    hide Enabled, Do;
    var t := Do(s, step);
    assert Run(t, []) == Some(t);
    RunOne(s, step, []);
    assert [step] + [] == [step];
  }

  lemma RunTwo(s: State, a: Step, b: Step)
    requires Enabled(s, a) && Enabled(Do(s, a), b)
    ensures Run(s, [a, b]) == Some(Do(Do(s, a), b))
  {
    hide Enabled, Do;
    RunLast(Do(s, a), b);
    assert [a] + [b] == [a, b];
    RunOne(s, a, [b]);
  }

  /** The call has its number and is remembered. */
  lemma Registers(s: State, ch: Chan) returns (u: State)
    requires ch < |s.calls| && s.Pc(ch).Locked? && s.next < U32_MAX
    ensures Run(s, [Number(ch), RegisterCall(ch)]) == Some(u)
    ensures u.devid == s.devid && u.next == s.next + 1 && u.shared == Register(s.shared, s.next, s.calls[ch].call)
    ensures u.sent == s.sent && u.inp == s.inp && u.broken == s.broken
    ensures ch < |u.calls| && u.calls[ch] == s.calls[ch].(pc := Writing(s.next, 0))
  {
    RunTwo(s, Number(ch), RegisterCall(ch));
    u := Do(Do(s, Number(ch)), RegisterCall(ch));
    hide Command.AsBytes, Run;
  }

  /** Everything is written at once. */
  lemma WritesAll(s: State, ch: Chan) returns (u: State)
    requires ch < |s.calls| && s.Pc(ch).Writing? && s.Pc(ch).done == 0 && s.broken.None?
    ensures Run(s, [WriteSome(ch, |s.CommandOf(ch).AsBytes()|)]) == Some(u)
    ensures u == s.(sent := u.sent, calls := u.calls, log := u.log, writer := u.writer) && |u.calls| == |s.calls|
    ensures u.sent == s.sent + s.CommandOf(ch).AsBytes()
    ensures u.Pc(ch) == if s.calls[ch].call.SubmitCall? then Written(s.Pc(ch).seqnum)
                        else BridgeSystem.Returned(s.Pc(ch).seqnum, UnlinkSent)
  {
    var bs := s.CommandOf(ch).AsBytes();
    assert bs[0..|bs|] == bs;
    hide Command.AsBytes;
    RunLast(s, WriteSome(ch, |bs|));
    u := Do(s, WriteSome(ch, |bs|));
  }

  /** A strict prefix is written, and the call is forgotten. */
  lemma WritesSome(s: State, ch: Chan, n: nat) returns (steps: seq<Step>, u: State)
    requires ch < |s.calls| && s.Pc(ch).Writing? && s.Pc(ch).done == 0 && s.broken.None?
    requires n < |s.CommandOf(ch).AsBytes()|
    ensures Run(s, steps) == Some(u) && |u.calls| == |s.calls|
    ensures u.next == s.next && u.inp == s.inp && u.shared == Unregister(s.shared, s.Pc(ch).seqnum, s.calls[ch].call)
    ensures u.sent == s.sent + s.CommandOf(ch).AsBytes()[..n] && u.Pc(ch).RolledBack()
  {
    hide Command.AsBytes;
    var bs := s.CommandOf(ch).AsBytes();
    assert bs[0..n] == bs[..n];
    if n == 0 {
      RunTwo(s, WriteFails(ch), RollBack(ch));
      steps, u := [WriteFails(ch), RollBack(ch)], Do(Do(s, WriteFails(ch)), RollBack(ch));
    } else {
      var t := Do(s, WriteSome(ch, n));
      RunTwo(t, WriteFails(ch), RollBack(ch));
      RunOne(s, WriteSome(ch, n), [WriteFails(ch), RollBack(ch)]);
      steps := [WriteSome(ch, n)] + [WriteFails(ch), RollBack(ch)];
      u := Do(Do(t, WriteFails(ch)), RollBack(ch));
    }
    hide Run;
  }

  lemma {:induction false} RunAppend(s: State, first: seq<Step>, more: seq<Step>)
    requires Run(s, first).Some?
    ensures Run(s, first + more) == Run(Run(s, first).value, more)
    decreases |first|
  {
    hide Enabled, Do;
    if first == [] {
      assert first + more == more;
    } else {
      assert (first + more)[0] == first[0] && (first + more)[1..] == first[1..] + more;
      RunAppend(Do(s, first[0]), first[1..], more);
    }
  }

  /** A call that has the mutex and is left alone leaves the counter, the maps and the stream as the writer
      half's send does, and ends as it ends. */
  lemma WriterTurn(s: State, ch: Chan, room: nat) returns (steps: seq<Step>)
    requires ch < |s.calls| && s.Pc(ch).Locked? && s.next < U32_MAX && s.broken.None?
    ensures Run(s, steps).Some?
    ensures var (c, answer), u := SplitStep(ConnOf(s, room), Send(s.calls[ch].call)), Run(s, steps).value;
            && (u.next, u.shared, u.sent, u.inp) == (c.next, c.shared, c.sent, c.inp)
            && ch < |u.calls| && Ended(u.Pc(ch), answer, s.calls[ch].call)
  {
    hide Enabled, Do, Run;
    var call := s.calls[ch].call;
    var s2 := Registers(s, ch);
    var bs := s2.CommandOf(ch).AsBytes();
    assert bs == ConnOf(s, room).NextCommand(call).AsBytes();
    var end, u;
    if |bs| <= room {
      u := WritesAll(s2, ch);
      end := [WriteSome(ch, |bs|)];
      assert bs[..|bs|] == bs;
    } else {
      end, u := WritesSome(s2, ch, room);
    }
    steps := [Number(ch), RegisterCall(ch)] + end;
    RunAppend(s, [Number(ch), RegisterCall(ch)], end);
    hide Command.AsBytes, Register, Unregister;
  }

  // --- The reader ---

  /** Header and unread bytes after it, for a header of a RET_SUBMIT. */
  lemma ReadsSubmit(s: State)
    requires s.reader.AtHeader? && |s.inp| >= HEADER_LEN && U32At(s.inp, 0) == USBIP_RET_SUBMIT
    ensures Enabled(s, ReadHeader) && Enabled(Do(s, ReadHeader), LookupPending)
    ensures var h, t := RetSubmitFrom(s.inp), Do(Do(s, ReadHeader), LookupPending);
            && t.reader == AfterLookup(h, Lookup(s.shared, h.seqnum).0)
            && t.shared == Lookup(s.shared, h.seqnum).1 && t.inp == s.inp[HEADER_LEN..]
  {
    hide U32At, RetSubmitFrom, RetUnlinkFrom, AfterLookup;
  }

  lemma ReadsPayload(t: State)
    requires t.reader.AtPayload?
    ensures var n: nat, h := t.reader.submit.actualLength, t.reader.submit;
            if n <= |t.inp| then
              && Enabled(t, ReadPayload)
              && (var u := Do(t, ReadPayload);
                  && u.shared == t.shared && u.inp == t.inp[n..]
                  && u.reader == AtDeliver(RetSubmit(h.seqnum, h.status, n, t.inp[..n], t.reader.direction)))
            else Enabled(t, ReadFails) && Do(t, ReadFails) == t.(reader := Stopping)
  {}

  lemma ReadsOther(s: State)
    requires s.reader.AtHeader? && |s.inp| >= HEADER_LEN && U32At(s.inp, 0) != USBIP_RET_SUBMIT
    ensures Enabled(s, ReadHeader)
    ensures var t := Do(s, ReadHeader);
            if U32At(s.inp, 0) != USBIP_RET_UNLINK then t.reader == Stopping && t.shared == s.shared
            else
              var h := RetUnlinkFrom(s.inp);
              && Enabled(t, SettleUnlinkCall)
              && (var u := Do(t, SettleUnlinkCall);
                  && u.shared == SettleUnlink(s.shared, h.seqnum, h.status) && u.inp == s.inp[HEADER_LEN..]
                  && u.reader == AtHeader)
  {
    hide U32At, RetSubmitFrom, RetUnlinkFrom, SettleUnlink;
  }

  /** `u` is what a receive on the bytes that have arrived leaves. */
  ghost predicate Receives(s: State, u: State) {
    var (received, sh, rest) := Recv(s.inp, s.shared);
    && u.shared == sh
    && match received
       case Response(Submit(ret)) => u.reader == AtDeliver(ret) && u.inp == rest
       case Response(Unlink(_, _)) => u.reader == AtHeader && u.inp == rest
       case Failure(_) => u.reader == Stopping
  }

  lemma SubmitTurn(s: State) returns (steps: seq<Step>)
    requires s.reader.AtHeader? && |s.inp| >= HEADER_LEN && U32At(s.inp, 0) == USBIP_RET_SUBMIT
    ensures Run(s, steps).Some? && Receives(s, Run(s, steps).value)
  {
    ReadsSubmit(s);
    var t := Do(Do(s, ReadHeader), LookupPending);
    RunTwo(s, ReadHeader, LookupPending);
    hide Do, Enabled, Run, U32At, RetSubmitFrom;
    steps := [ReadHeader, LookupPending];
    if t.reader.AtPayload? {
      ReadsPayload(t);
      var step := if t.reader.submit.actualLength <= |t.inp| then ReadPayload else ReadFails;
      RunLast(t, step);
      RunAppend(s, steps, [step]);
      steps := steps + [step];
    }
  }

  /** The reader, left alone with the bytes that have arrived, leaves the maps and the unread bytes as the
      reader half's receive does: it has the response in hand, or has dealt with the acknowledgement of an
      unlink, or has stopped. */
  lemma ReaderTurn(s: State) returns (steps: seq<Step>)
    requires s.reader.AtHeader?
    ensures Run(s, steps).Some? && Receives(s, Run(s, steps).value)
  {
    if |s.inp| < HEADER_LEN {
      RunLast(s, ReadFails);
      return [ReadFails];
    }
    if U32At(s.inp, 0) == USBIP_RET_SUBMIT {
      steps := SubmitTurn(s);
    } else {
      ReadsOther(s);
      hide Do, Enabled, Run, U32At, RetUnlinkFrom, SettleUnlink;
      if U32At(s.inp, 0) == USBIP_RET_UNLINK {
        RunTwo(s, ReadHeader, SettleUnlinkCall);
        steps := [ReadHeader, SettleUnlinkCall];
      } else {
        RunLast(s, ReadHeader);
        steps := [ReadHeader];
      }
    }
  }
}
