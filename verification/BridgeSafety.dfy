/** What every step of the bridge keeps, against a server that may send anything. Each invariant is
    stated over the components it constrains, so a step that leaves those alone keeps it. */
module BridgeSafety {
  import opened Bytes
  import opened Protocol
  import opened Wire
  import opened Commands
  import opened Responses
  import opened BridgeSystem

  type Calls = seq<CallState>

  // --- The invariant ---

  /** The call recorded as holder is the one call between taking and releasing the writer mutex. */
  ghost predicate WriterInv(calls: Calls, writer: Option<Chan>) {
    && (writer.Some? ==> writer.value < |calls|)
    && (forall ch | 0 <= ch < |calls| :: calls[ch].pc.HoldsWriter() <==> writer == Some(ch))
  }

  /** Sequence numbers and numbered calls correspond one to one; the latest belongs to the writer. */
  ghost predicate IssuedInv(calls: Calls, issued: map<u32, Chan>, next: u32) {
    && 0 < next
    && (forall q | q in issued :: q < next && IssuedTo(calls, q, issued[q]))
    && (forall ch | 0 <= ch < |calls| && calls[ch].pc.HasSeqnum() ::
          calls[ch].pc.seqnum in issued && issued[calls[ch].pc.seqnum] == ch)
    && (forall ch | 0 <= ch < |calls| && calls[ch].pc.HoldsWriter() && calls[ch].pc.HasSeqnum() ::
          calls[ch].pc.seqnum + 1 == next)
  }

  ghost predicate IssuedTo(calls: Calls, q: u32, ch: Chan) {
    ch < |calls| && calls[ch].pc.HasSeqnum() && calls[ch].pc.seqnum == q
  }

  /** `q` belongs to a call that is past registration. */
  ghost predicate Registered(calls: Calls, issued: map<u32, Chan>, q: u32) {
    q in issued && IssuedTo(calls, q, issued[q]) && !calls[issued[q]].pc.Numbered?
  }

  ghost predicate IsSubmit(calls: Calls, issued: map<u32, Chan>, q: u32, direction: Direction) {
    Registered(calls, issued, q) &&
    calls[issued[q]].call.SubmitCall? && calls[issued[q]].call.direction == direction
  }

  ghost predicate IsUnlink(calls: Calls, issued: map<u32, Chan>, u: u32, target: u32) {
    Registered(calls, issued, u) && calls[issued[u]].call == UnlinkCall(target)
  }

  /** A remembered submission is unanswered and of the remembered direction, and until the drain its
      caller is still inside the call. */
  ghost predicate PendingInv(calls: Calls, issued: map<u32, Chan>, sh: Shared, answers: map<u32, RetSubmit>,
                             drains: bool)
  {
    && (forall q | q in sh.pending :: PendingOk(calls, issued, q, sh.pending[q], answers, drains))
    && (forall u | u in sh.unlinks ::
          IsUnlink(calls, issued, u, sh.unlinks[u]) && !calls[issued[u]].pc.RolledBack())
  }

  ghost predicate PendingOk(calls: Calls, issued: map<u32, Chan>, q: u32, direction: Direction,
                            answers: map<u32, RetSubmit>, drains: bool)
  {
    && IsSubmit(calls, issued, q, direction) && q !in answers && !calls[issued[q]].pc.RolledBack()
    && (drains || calls[issued[q]].pc.Outstanding())
  }

  ghost predicate AnswersInv(calls: Calls, issued: map<u32, Chan>, answers: map<u32, RetSubmit>) {
    forall q | q in answers ::
      answers[q].seqnum == q && answers[q].WellShaped() && IsSubmit(calls, issued, q, answers[q].direction)
  }

  /** What the reader carries belongs to a submission that was remembered and no longer is. */
  ghost predicate CarriedInv(calls: Calls, issued: map<u32, Chan>, pending: map<u32, Direction>,
                             answers: map<u32, RetSubmit>, reader: Reader)
  {
    && (reader.AtPayload? ==>
          && reader.direction.In? && IsSubmit(calls, issued, reader.submit.seqnum, In)
          && reader.submit.seqnum !in pending && reader.submit.seqnum !in answers)
    && (reader.AtDeliver? || reader.AtSend? ==>
          reader.ret.seqnum in answers && answers[reader.ret.seqnum] == reader.ret)
  }

  ghost predicate WaitsOn(calls: Calls, q: u32, ch: Chan) {
    ch < |calls| && calls[ch].pc.Waiting? && calls[ch].pc.seqnum == q
  }

  /** A sender kept anywhere belongs to the caller waiting on its channel. */
  ghost predicate SenderInv(calls: Calls, bridge: map<u32, Chan>, mail: map<Chan, Result>, reader: Reader) {
    && (forall q | q in bridge :: WaitsOn(calls, q, bridge[q]) && bridge[q] !in mail)
    && (reader.AtSend? ==>
          WaitsOn(calls, reader.ret.seqnum, reader.ch) && reader.ch !in mail && reader.ret.seqnum !in bridge)
  }

  /** What a submit may be told: the response decoded for its own number, or that the reader is gone. */
  ghost predicate GoodResult(q: u32, r: Result, answers: map<u32, RetSubmit>, drains: bool) {
    match r
    case Delivered(ret) => q in answers && answers[q] == ret
    case BrokenPipe => drains
    case _ => false
  }

  ghost predicate MailInv(calls: Calls, mail: map<Chan, Result>, answers: map<u32, RetSubmit>, drains: bool) {
    forall ch | ch in mail ::
      ch < |calls| && calls[ch].pc.Waiting? && GoodResult(calls[ch].pc.seqnum, mail[ch], answers, drains)
  }

  ghost predicate ReturnedInv(calls: Calls, answers: map<u32, RetSubmit>, drains: bool) {
    forall ch | 0 <= ch < |calls| && calls[ch].pc.Returned? ::
      match calls[ch].pc.result
      case WriteError => true
      case UnlinkSent => calls[ch].call.UnlinkCall?
      case _ => GoodResult(calls[ch].pc.seqnum, calls[ch].pc.result, answers, drains)
  }

  ghost predicate InBridge(bridge: map<u32, Chan>, q: u32, ch: Chan) {
    q in bridge && bridge[q] == ch
  }

  ghost predicate HeldByReader(reader: Reader, ch: Chan) {
    reader.AtSend? && reader.ch == ch
  }

  /** A waiting caller's sender is in the map, with the reader, or has been used; and once the reader
      has stopped, only callers that inserted too late have not been told. */
  ghost predicate WaitingInv(calls: Calls, bridge: map<u32, Chan>, mail: map<Chan, Result>, reader: Reader) {
    forall ch | 0 <= ch < |calls| :: WaitingOk(calls[ch], ch, bridge, mail, reader)
  }

  ghost predicate WaitingOk(c: CallState, ch: Chan, bridge: map<u32, Chan>, mail: map<Chan, Result>, reader: Reader) {
    && (c.pc.Written? || c.pc.Waiting? ==> c.call.SubmitCall?)
    && (c.pc.Waiting? ==>
          && (InBridge(bridge, c.pc.seqnum, ch) || HeldByReader(reader, ch) || ch in mail)
          && (c.pc.late ==> reader.Stopped? && InBridge(bridge, c.pc.seqnum, ch))
          && (reader.Stopped? && !c.pc.late ==> ch in mail))
  }

  /** A channel has been sent to once if its result is waiting or was taken, and never otherwise. */
  ghost predicate SendsInv(calls: Calls, mail: map<Chan, Result>, sends: multiset<Chan>) {
    && (forall ch | 0 <= ch < |calls| :: sends[ch] == if ch in mail || calls[ch].pc.Told() then 1 else 0)
    && (forall ch: Chan :: ch >= |calls| ==> sends[ch] == 0)
  }

  ghost predicate Inv(s: State) {
    && WriterInv(s.calls, s.writer)
    && IssuedInv(s.calls, s.issued, s.next)
    && PendingInv(s.calls, s.issued, s.shared, s.answers, s.reader.Drains())
    && AnswersInv(s.calls, s.issued, s.answers)
    && CarriedInv(s.calls, s.issued, s.shared.pending, s.answers, s.reader)
    && SenderInv(s.calls, s.bridge, s.mail, s.reader)
    && MailInv(s.calls, s.mail, s.answers, s.reader.Drains())
    && ReturnedInv(s.calls, s.answers, s.reader.Drains())
    && WaitingInv(s.calls, s.bridge, s.mail, s.reader)
    && SendsInv(s.calls, s.mail, s.sends)
  }

  // --- One call moving on ---

  lemma WriterMove(calls: Calls, writer: Option<Chan>, ch: Chan, pc: Pc, writer': Option<Chan>)
    requires WriterInv(calls, writer) && ch < |calls|
    requires calls[ch].pc.HoldsWriter() || writer == writer' || writer.None?
    requires writer' == (if pc.HoldsWriter() then Some(ch) else if calls[ch].pc.HoldsWriter() then None else writer)
    ensures WriterInv(Move(calls, ch, pc), writer')
  {}

  lemma IssuedMove(calls: Calls, issued: map<u32, Chan>, next: u32, ch: Chan, pc: Pc)
    requires IssuedInv(calls, issued, next) && ch < |calls|
    requires calls[ch].pc.HasSeqnum() == pc.HasSeqnum()
    requires pc.HasSeqnum() ==> pc.seqnum == calls[ch].pc.seqnum
    requires pc.HasSeqnum() && pc.HoldsWriter() ==> calls[ch].pc.HoldsWriter()
    ensures IssuedInv(Move(calls, ch, pc), issued, next)
  {}

  /** What is said of a numbered call's kind survives its later moves. */
  lemma KindMove(calls: Calls, issued: map<u32, Chan>, ch: Chan, pc: Pc, q: u32)
    requires ch < |calls| && (calls[ch].pc.HasSeqnum() ==> Follows(calls[ch].pc, pc))
    ensures Registered(calls, issued, q) ==> Registered(Move(calls, ch, pc), issued, q)
    ensures forall d :: IsSubmit(calls, issued, q, d) ==> IsSubmit(Move(calls, ch, pc), issued, q, d)
    ensures forall d :: IsUnlink(calls, issued, q, d) ==> IsUnlink(Move(calls, ch, pc), issued, q, d)
  {}

  /** The program counter of a numbered call moves on under the same number. */
  ghost predicate Follows(pc: Pc, pc': Pc) {
    pc.HasSeqnum() && pc'.HasSeqnum() && !pc'.Numbered? && pc'.seqnum == pc.seqnum
  }

  lemma PendingMove(calls: Calls, issued: map<u32, Chan>, sh: Shared, answers: map<u32, RetSubmit>, drains: bool,
                    ch: Chan, pc: Pc)
    requires PendingInv(calls, issued, sh, answers, drains)
    requires ch < |calls| && (calls[ch].pc.HasSeqnum() ==> Follows(calls[ch].pc, pc))
    requires calls[ch].pc.HasSeqnum() && calls[ch].pc.seqnum in sh.pending ==>
               !pc.RolledBack() && (drains || pc.Outstanding())
    requires calls[ch].pc.HasSeqnum() && calls[ch].pc.seqnum in sh.unlinks ==> !pc.RolledBack()
    ensures PendingInv(Move(calls, ch, pc), issued, sh, answers, drains)
  {
    forall q | q in sh.pending
      ensures PendingOk(Move(calls, ch, pc), issued, q, sh.pending[q], answers, drains)
    {
      assert PendingOk(calls, issued, q, sh.pending[q], answers, drains);
      KindMove(calls, issued, ch, pc, q);
    }
    forall u | u in sh.unlinks
      ensures IsUnlink(Move(calls, ch, pc), issued, u, sh.unlinks[u])
      ensures !Move(calls, ch, pc)[issued[u]].pc.RolledBack()
    {
      assert IsUnlink(calls, issued, u, sh.unlinks[u]);
      KindMove(calls, issued, ch, pc, u);
    }
  }

  lemma AnswersMove(calls: Calls, issued: map<u32, Chan>, pending: map<u32, Direction>,
                    answers: map<u32, RetSubmit>, reader: Reader, ch: Chan, pc: Pc)
    requires AnswersInv(calls, issued, answers) && CarriedInv(calls, issued, pending, answers, reader)
    requires ch < |calls| && (calls[ch].pc.HasSeqnum() ==> Follows(calls[ch].pc, pc))
    ensures AnswersInv(Move(calls, ch, pc), issued, answers)
    ensures CarriedInv(Move(calls, ch, pc), issued, pending, answers, reader)
  {
    forall q | q in answers
      ensures IsSubmit(Move(calls, ch, pc), issued, q, answers[q].direction)
    {
      KindMove(calls, issued, ch, pc, q);
    }
    if reader.AtPayload? {
      KindMove(calls, issued, ch, pc, reader.submit.seqnum);
    }
  }

  /** Steps that only move one program counter on and take no sender anywhere. */
  lemma PcKeeps(s: State, u: State, ch: Chan, pc: Pc)
    requires Inv(s) && ch < |s.calls| && u.calls == Move(s.calls, ch, pc)
    requires u.issued == s.issued && u.next == s.next && u.shared == s.shared && u.answers == s.answers
    requires u.bridge == s.bridge && u.mail == s.mail && u.reader == s.reader && u.sends == s.sends
    requires u.writer == if pc.HoldsWriter() then Some(ch) else None
    requires var was := s.calls[ch].pc;
             || (was.Calling? && s.writer.None? && pc.Locked?)
             || (was.Writing? && (pc.Writing? || pc.Failed?) && pc.seqnum == was.seqnum)
             || (was.Writing? && pc == Written(was.seqnum) && s.calls[ch].call.SubmitCall?)
             || (was.Writing? && pc == Returned(was.seqnum, UnlinkSent) && s.calls[ch].call.UnlinkCall?)
    ensures Inv(u)
  {
    hide AnswersInv, CarriedInv, SenderInv, MailInv, ReturnedInv, WaitingInv, SendsInv;
    WriterMove(s.calls, s.writer, ch, pc, u.writer);
    IssuedMove(s.calls, s.issued, s.next, ch, pc);
    if s.calls[ch].pc.HasSeqnum() && s.calls[ch].pc.seqnum in s.shared.pending {
      var q := s.calls[ch].pc.seqnum;
      assert PendingOk(s.calls, s.issued, q, s.shared.pending[q], s.answers, s.reader.Drains());
    }
    PendingMove(s.calls, s.issued, s.shared, s.answers, s.reader.Drains(), ch, pc);
    AnswersMove(s.calls, s.issued, s.shared.pending, s.answers, s.reader, ch, pc);
    WaitingMove(s, ch, pc);
  }

  /** A call that does not wait, before or after, is nobody's receiver. */
  lemma WaitingMove(s: State, ch: Chan, pc: Pc)
    requires Inv(s) && ch < |s.calls|
    requires !s.calls[ch].pc.Waiting? && !s.calls[ch].pc.Returned? && !pc.Waiting?
    requires pc.Written? ==> s.calls[ch].call.SubmitCall?
    requires pc.Returned? ==> pc.result.WriteError? || (pc.result.UnlinkSent? && s.calls[ch].call.UnlinkCall?)
    ensures var calls := Move(s.calls, ch, pc);
            && SenderInv(calls, s.bridge, s.mail, s.reader)
            && MailInv(calls, s.mail, s.answers, s.reader.Drains())
            && ReturnedInv(calls, s.answers, s.reader.Drains())
            && WaitingInv(calls, s.bridge, s.mail, s.reader)
            && SendsInv(calls, s.mail, s.sends)
  {
    hide SenderInv, MailInv, ReturnedInv, WaitingInv, SendsInv, PendingInv, AnswersInv, CarriedInv, WriterInv,
         IssuedInv;
    SenderMove(s.calls, s.bridge, s.mail, s.reader, ch, pc);
    ResultMove(s.calls, s.mail, s.answers, s.reader.Drains(), s.sends, ch, pc);
  }

  lemma SenderMove(calls: Calls, bridge: map<u32, Chan>, mail: map<Chan, Result>, reader: Reader, ch: Chan, pc: Pc)
    requires SenderInv(calls, bridge, mail, reader) && WaitingInv(calls, bridge, mail, reader) && ch < |calls|
    requires !calls[ch].pc.Waiting? && !pc.Waiting? && (pc.Written? ==> calls[ch].call.SubmitCall?)
    ensures SenderInv(Move(calls, ch, pc), bridge, mail, reader)
    ensures WaitingInv(Move(calls, ch, pc), bridge, mail, reader)
  {
    forall c | 0 <= c < |calls|
      ensures WaitingOk(Move(calls, ch, pc)[c], c, bridge, mail, reader)
    {
      assert WaitingOk(calls[c], c, bridge, mail, reader);
    }
  }

  lemma ResultMove(calls: Calls, mail: map<Chan, Result>, answers: map<u32, RetSubmit>, drains: bool,
                   sends: multiset<Chan>, ch: Chan, pc: Pc)
    requires MailInv(calls, mail, answers, drains) && ReturnedInv(calls, answers, drains)
    requires SendsInv(calls, mail, sends) && ch < |calls|
    requires !calls[ch].pc.Waiting? && !calls[ch].pc.Returned? && !pc.Waiting?
    requires pc.Returned? ==> pc.result.WriteError? || (pc.result.UnlinkSent? && calls[ch].call.UnlinkCall?)
    ensures MailInv(Move(calls, ch, pc), mail, answers, drains) && ReturnedInv(Move(calls, ch, pc), answers, drains)
    ensures SendsInv(Move(calls, ch, pc), mail, sends)
  {}

  // --- The steps of a thread ---

  lemma PendingBegin(calls: Calls, issued: map<u32, Chan>, sh: Shared, answers: map<u32, RetSubmit>, drains: bool,
                     c: CallState)
    requires PendingInv(calls, issued, sh, answers, drains)
    ensures PendingInv(calls + [c], issued, sh, answers, drains)
  {
    forall q | q in sh.pending
      ensures PendingOk(calls + [c], issued, q, sh.pending[q], answers, drains)
    {
      assert PendingOk(calls, issued, q, sh.pending[q], answers, drains);
    }
  }

  lemma BeginKeeps(s: State, t: Tid, call: Call)
    requires Inv(s) && ThreadEnabled(s, Begin(t, call))
    ensures Inv(DoThread(s, Begin(t, call)))
  {
    PendingBegin(s.calls, s.issued, s.shared, s.answers, s.reader.Drains(), CallState(t, call, Calling));
    BeginKeepsRest(s, CallState(t, call, Calling));
  }

  lemma BeginKeepsRest(s: State, c: CallState)
    requires Inv(s) && c.pc.Calling?
    ensures var calls := s.calls + [c];
            && WriterInv(calls, s.writer) && IssuedInv(calls, s.issued, s.next)
            && AnswersInv(calls, s.issued, s.answers)
            && CarriedInv(calls, s.issued, s.shared.pending, s.answers, s.reader)
            && SenderInv(calls, s.bridge, s.mail, s.reader)
            && MailInv(calls, s.mail, s.answers, s.reader.Drains())
            && ReturnedInv(calls, s.answers, s.reader.Drains())
            && WaitingInv(calls, s.bridge, s.mail, s.reader)
            && SendsInv(calls, s.mail, s.sends)
  {
    hide PendingInv, SenderInv, MailInv, ReturnedInv, WaitingInv, SendsInv;
    BeginKeepsResults(s.calls, s.bridge, s.mail, s.reader, s.answers, s.sends, c);
  }

  lemma BeginKeepsResults(calls: Calls, bridge: map<u32, Chan>, mail: map<Chan, Result>, reader: Reader,
                          answers: map<u32, RetSubmit>, sends: multiset<Chan>, c: CallState)
    requires SenderInv(calls, bridge, mail, reader) && WaitingInv(calls, bridge, mail, reader)
    requires MailInv(calls, mail, answers, reader.Drains()) && ReturnedInv(calls, answers, reader.Drains())
    requires SendsInv(calls, mail, sends) && c.pc.Calling?
    ensures SenderInv(calls + [c], bridge, mail, reader) && WaitingInv(calls + [c], bridge, mail, reader)
    ensures MailInv(calls + [c], mail, answers, reader.Drains()) && ReturnedInv(calls + [c], answers, reader.Drains())
    ensures SendsInv(calls + [c], mail, sends)
  {
    hide GoodResult;
  }

  lemma NumberedNext(calls: Calls, issued: map<u32, Chan>, next: u32, ch: Chan)
    requires IssuedInv(calls, issued, next) && next < U32_MAX && ch < |calls| && calls[ch].pc.Locked?
    requires forall c | 0 <= c < |calls| && calls[c].pc.HoldsWriter() :: c == ch
    ensures IssuedInv(Move(calls, ch, Numbered(next)), issued[next := ch], next + 1)
    ensures forall q | q in issued :: q != next && issued[q] != ch
  {}

  lemma KindNumber(calls: Calls, issued: map<u32, Chan>, ch: Chan, next: u32, q: u32)
    requires ch < |calls| && q != next && (q in issued ==> issued[q] != ch)
    ensures Registered(calls, issued, q) ==> Registered(Move(calls, ch, Numbered(next)), issued[next := ch], q)
    ensures forall d :: IsSubmit(calls, issued, q, d) ==>
              IsSubmit(Move(calls, ch, Numbered(next)), issued[next := ch], q, d)
    ensures forall d :: IsUnlink(calls, issued, q, d) ==>
              IsUnlink(Move(calls, ch, Numbered(next)), issued[next := ch], q, d)
  {}

  lemma NumberKeeps(s: State, ch: Chan)
    requires Inv(s) && ThreadEnabled(s, Number(ch))
    ensures Inv(DoThread(s, Number(ch)))
  {
    var u := DoThread(s, Number(ch));
    assert u.calls == Move(s.calls, ch, Numbered(s.next));
    WriterMove(s.calls, s.writer, ch, Numbered(s.next), u.writer);
    NumberedNext(s.calls, s.issued, s.next, ch);
    NumberKeepsKinds(s, ch);
    WaitingMove(s, ch, Numbered(s.next));
  }

  lemma NumberKeepsKinds(s: State, ch: Chan)
    requires Inv(s) && ch < |s.calls| && s.Pc(ch).Locked? && s.next < U32_MAX
    ensures var calls, issued := Move(s.calls, ch, Numbered(s.next)), s.issued[s.next := ch];
            && PendingInv(calls, issued, s.shared, s.answers, s.reader.Drains())
            && AnswersInv(calls, issued, s.answers)
            && CarriedInv(calls, issued, s.shared.pending, s.answers, s.reader)
  {
    var calls, issued := Move(s.calls, ch, Numbered(s.next)), s.issued[s.next := ch];
    NumberedNext(s.calls, s.issued, s.next, ch);
    forall q | q in s.shared.pending
      ensures PendingOk(calls, issued, q, s.shared.pending[q], s.answers, s.reader.Drains())
    {
      assert PendingOk(s.calls, s.issued, q, s.shared.pending[q], s.answers, s.reader.Drains());
      KindNumber(s.calls, s.issued, ch, s.next, q);
    }
    forall q | q in s.shared.unlinks
      ensures IsUnlink(calls, issued, q, s.shared.unlinks[q])
    {
      assert IsUnlink(s.calls, s.issued, q, s.shared.unlinks[q]);
      KindNumber(s.calls, s.issued, ch, s.next, q);
    }
    forall q | q in s.answers
      ensures IsSubmit(calls, issued, q, s.answers[q].direction)
    {
      KindNumber(s.calls, s.issued, ch, s.next, q);
    }
    if s.reader.AtPayload? {
      KindNumber(s.calls, s.issued, ch, s.next, s.reader.submit.seqnum);
    }
  }

  lemma RegisterKeeps(s: State, ch: Chan)
    requires Inv(s) && ThreadEnabled(s, RegisterCall(ch))
    ensures Inv(DoThread(s, RegisterCall(ch)))
  {
    var q, call := s.Pc(ch).seqnum, s.calls[ch].call;
    var u := DoThread(s, RegisterCall(ch));
    var pc := Writing(q, 0);
    assert u.calls == Move(s.calls, ch, pc);
    WriterMove(s.calls, s.writer, ch, pc, u.writer);
    IssuedMove(s.calls, s.issued, s.next, ch, pc);
    PendingRegister(s.calls, s.issued, s.shared, s.answers, s.reader.Drains(), ch);
    AnswersMove(s.calls, s.issued, s.shared.pending, s.answers, s.reader, ch, pc);
    WaitingMove(s, ch, pc);
    assert !Registered(s.calls, s.issued, q);
  }

  lemma PendingRegister(calls: Calls, issued: map<u32, Chan>, sh: Shared, answers: map<u32, RetSubmit>, drains: bool,
                        ch: Chan)
    requires PendingInv(calls, issued, sh, answers, drains) && AnswersInv(calls, issued, answers)
    requires ch < |calls| && calls[ch].pc.Numbered? && InBridge(issued, calls[ch].pc.seqnum, ch)
    ensures var q := calls[ch].pc.seqnum;
            PendingInv(Move(calls, ch, Writing(q, 0)), issued, Register(sh, q, calls[ch].call), answers, drains)
  {
    var q, call := calls[ch].pc.seqnum, calls[ch].call;
    var calls', sh' := Move(calls, ch, Writing(q, 0)), Register(sh, q, call);
    assert !Registered(calls, issued, q);
    assert Registered(calls', issued, q);
    forall p | p in sh'.pending
      ensures PendingOk(calls', issued, p, sh'.pending[p], answers, drains)
    {
      if p != q {
        assert PendingOk(calls, issued, p, sh.pending[p], answers, drains);
        KindMove(calls, issued, ch, Writing(q, 0), p);
      }
    }
    forall u | u in sh'.unlinks
      ensures IsUnlink(calls', issued, u, sh'.unlinks[u]) && !calls'[issued[u]].pc.RolledBack()
    {
      if u != q {
        assert IsUnlink(calls, issued, u, sh.unlinks[u]);
        KindMove(calls, issued, ch, Writing(q, 0), u);
      }
    }
  }

  lemma RollBackKeeps(s: State, ch: Chan)
    requires Inv(s) && ThreadEnabled(s, RollBack(ch))
    ensures Inv(DoThread(s, RollBack(ch)))
  {
    var q, call := s.Pc(ch).seqnum, s.calls[ch].call;
    var u := DoThread(s, RollBack(ch));
    var pc := Returned(q, WriteError);
    assert u.calls == Move(s.calls, ch, pc);
    WriterMove(s.calls, s.writer, ch, pc, u.writer);
    IssuedMove(s.calls, s.issued, s.next, ch, pc);
    RollBackKeepsPending(s, ch);
    AnswersMove(s.calls, s.issued, s.shared.pending, s.answers, s.reader, ch, pc);
    WaitingMove(s, ch, pc);
  }

  lemma RollBackKeepsPending(s: State, ch: Chan)
    requires Inv(s) && ThreadEnabled(s, RollBack(ch))
    ensures var u := DoThread(s, RollBack(ch));
            PendingInv(u.calls, u.issued, u.shared, u.answers, u.reader.Drains())
  {
    hide WriterInv, AnswersInv, CarriedInv, SenderInv, MailInv, ReturnedInv, WaitingInv, SendsInv;
    var q, call := s.Pc(ch).seqnum, s.calls[ch].call;
    var sh := Unregister(s.shared, q, call);
    assert q in s.shared.pending ==> PendingOk(s.calls, s.issued, q, s.shared.pending[q], s.answers, s.reader.Drains());
    assert q in s.shared.unlinks ==> IsUnlink(s.calls, s.issued, q, s.shared.unlinks[q]);
    assert PendingInv(s.calls, s.issued, sh, s.answers, s.reader.Drains());
    PendingMove(s.calls, s.issued, sh, s.answers, s.reader.Drains(), ch, Returned(q, WriteError));
  }

  lemma InsertKeeps(s: State, ch: Chan)
    requires Inv(s) && ThreadEnabled(s, Insert(ch))
    ensures Inv(DoThread(s, Insert(ch)))
  {
    var q := s.Pc(ch).seqnum;
    var u := DoThread(s, Insert(ch));
    var pc := Waiting(q, s.reader.Stopped?);
    assert u.calls == Move(s.calls, ch, pc);
    WriterMove(s.calls, s.writer, ch, pc, u.writer);
    IssuedMove(s.calls, s.issued, s.next, ch, pc);
    PendingMove(s.calls, s.issued, s.shared, s.answers, s.reader.Drains(), ch, pc);
    AnswersMove(s.calls, s.issued, s.shared.pending, s.answers, s.reader, ch, pc);
    InsertKeepsSenders(s, ch);
  }

  lemma InsertKeepsSenders(s: State, ch: Chan)
    requires Inv(s) && ThreadEnabled(s, Insert(ch))
    ensures var q := s.Pc(ch).seqnum;
            var calls, bridge := Move(s.calls, ch, Waiting(q, s.reader.Stopped?)), s.bridge[q := ch];
            && SenderInv(calls, bridge, s.mail, s.reader)
            && MailInv(calls, s.mail, s.answers, s.reader.Drains())
            && ReturnedInv(calls, s.answers, s.reader.Drains())
            && WaitingInv(calls, bridge, s.mail, s.reader)
            && SendsInv(calls, s.mail, s.sends)
  {
    hide WriterInv, IssuedInv, WaitingInv, SenderInv, MailInv, ReturnedInv, SendsInv, PendingInv, AnswersInv,
         CarriedInv;
    var pc := Waiting(s.Pc(ch).seqnum, s.reader.Stopped?);
    InsertKeepsResults(s.calls, s.mail, s.answers, s.reader.Drains(), s.sends, ch, pc);
    InsertKeepsBridge(s.calls, s.issued, s.next, s.bridge, s.mail, s.reader, ch);
    InsertKeepsWaiting(s.calls, s.bridge, s.mail, s.reader, ch);
  }

  lemma InsertKeepsResults(calls: Calls, mail: map<Chan, Result>, answers: map<u32, RetSubmit>, drains: bool,
                           sends: multiset<Chan>, ch: Chan, pc: Pc)
    requires MailInv(calls, mail, answers, drains) && ReturnedInv(calls, answers, drains)
    requires SendsInv(calls, mail, sends)
    requires ch < |calls| && calls[ch].pc.Written? && pc.Waiting?
    ensures ch !in mail
    ensures MailInv(Move(calls, ch, pc), mail, answers, drains) && ReturnedInv(Move(calls, ch, pc), answers, drains)
    ensures SendsInv(Move(calls, ch, pc), mail, sends)
  {
    hide GoodResult;
  }

  lemma InsertKeepsBridge(calls: Calls, issued: map<u32, Chan>, next: u32, bridge: map<u32, Chan>,
                          mail: map<Chan, Result>, reader: Reader, ch: Chan)
    requires IssuedInv(calls, issued, next) && SenderInv(calls, bridge, mail, reader)
    requires ch < |calls| && calls[ch].pc.Written? && ch !in mail
    ensures calls[ch].pc.seqnum !in bridge
    ensures var q := calls[ch].pc.seqnum;
            SenderInv(Move(calls, ch, Waiting(q, reader.Stopped?)), bridge[q := ch], mail, reader)
  {
    var q := calls[ch].pc.seqnum;
    assert q in bridge ==> WaitsOn(calls, q, bridge[q]);
  }

  lemma InsertKeepsWaiting(calls: Calls, bridge: map<u32, Chan>, mail: map<Chan, Result>, reader: Reader, ch: Chan)
    requires WaitingInv(calls, bridge, mail, reader) && ch < |calls| && calls[ch].pc.Written?
    requires !reader.Draining? && calls[ch].pc.seqnum !in bridge
    ensures var q := calls[ch].pc.seqnum;
            WaitingInv(Move(calls, ch, Waiting(q, reader.Stopped?)), bridge[q := ch], mail, reader)
  {
    assert WaitingOk(calls[ch], ch, bridge, mail, reader);
  }

  lemma TakeMailKeeps(s: State, ch: Chan)
    requires Inv(s) && ThreadEnabled(s, TakeMail(ch))
    ensures Inv(DoThread(s, TakeMail(ch)))
  {
    var q := s.Pc(ch).seqnum;
    var u := DoThread(s, TakeMail(ch));
    var pc := Returned(q, s.mail[ch]);
    assert u.calls == Move(s.calls, ch, pc);
    WriterMove(s.calls, s.writer, ch, pc, u.writer);
    IssuedMove(s.calls, s.issued, s.next, ch, pc);
    assert GoodResult(q, s.mail[ch], s.answers, s.reader.Drains());
    if q in s.shared.pending {
      assert PendingOk(s.calls, s.issued, q, s.shared.pending[q], s.answers, s.reader.Drains());
    }
    PendingMove(s.calls, s.issued, s.shared, s.answers, s.reader.Drains(), ch, pc);
    AnswersMove(s.calls, s.issued, s.shared.pending, s.answers, s.reader, ch, pc);
    TakeMailKeepsSenders(s, ch);
  }

  lemma TakeMailKeepsSenders(s: State, ch: Chan)
    requires Inv(s) && ThreadEnabled(s, TakeMail(ch))
    ensures var calls, mail := Move(s.calls, ch, Returned(s.Pc(ch).seqnum, s.mail[ch])), s.mail - {ch};
            && SenderInv(calls, s.bridge, mail, s.reader)
            && MailInv(calls, mail, s.answers, s.reader.Drains())
            && ReturnedInv(calls, s.answers, s.reader.Drains())
            && WaitingInv(calls, s.bridge, mail, s.reader)
            && SendsInv(calls, mail, s.sends)
  {
    hide WaitingInv, PendingInv, AnswersInv, CarriedInv, IssuedInv, WriterInv, SenderInv, SendsInv;
    assert GoodResult(s.Pc(ch).seqnum, s.mail[ch], s.answers, s.reader.Drains());
    TakeMailKeepsBridge(s.calls, s.bridge, s.mail, s.reader, s.sends, ch, Returned(s.Pc(ch).seqnum, s.mail[ch]));
    TakeMailKeepsWaiting(s.calls, s.bridge, s.mail, s.reader, ch, Returned(s.Pc(ch).seqnum, s.mail[ch]));
  }

  lemma TakeMailKeepsBridge(calls: Calls, bridge: map<u32, Chan>, mail: map<Chan, Result>, reader: Reader,
                            sends: multiset<Chan>, ch: Chan, pc: Pc)
    requires SenderInv(calls, bridge, mail, reader) && SendsInv(calls, mail, sends)
    requires ch < |calls| && ch in mail && pc.Told()
    ensures SenderInv(Move(calls, ch, pc), bridge, mail - {ch}, reader)
    ensures SendsInv(Move(calls, ch, pc), mail - {ch}, sends)
  {}

  lemma TakeMailKeepsWaiting(calls: Calls, bridge: map<u32, Chan>, mail: map<Chan, Result>, reader: Reader, ch: Chan,
                             pc: Pc)
    requires WaitingInv(calls, bridge, mail, reader) && ch < |calls| && pc.Returned?
    ensures WaitingInv(Move(calls, ch, pc), bridge, mail - {ch}, reader)
  {}

  lemma WriteKeeps(s: State, ch: Chan, n: nat)
    requires Inv(s) && ThreadEnabled(s, WriteSome(ch, n))
    ensures Inv(DoThread(s, WriteSome(ch, n)))
  {
    hide Inv, Command.AsBytes;
    var done, bs := s.Pc(ch).done, s.CommandOf(ch).AsBytes();
    WroteKeeps(s, ch, bs[done..done + n], done + n == |bs|);
  }

  lemma WroteKeeps(s: State, ch: Chan, piece: seq<byte>, complete: bool)
    requires Inv(s) && ch < |s.calls| && s.Pc(ch).Writing?
    ensures Inv(Wrote(s, ch, piece, complete))
  {
    hide PendingInv, AnswersInv, CarriedInv, SenderInv, MailInv, ReturnedInv, WaitingInv, SendsInv, IssuedInv;
    var u := Wrote(s, ch, piece, complete);
    PcKeeps(s, u, ch, u.Pc(ch));
  }

  lemma ThreadKeeps(s: State, step: Step)
    requires Inv(s) && ThreadEnabled(s, step)
    ensures Inv(DoThread(s, step))
  {
    var u := DoThread(s, step);
    match step
    case Spawn(t, kind) =>
    case Begin(t, call) => BeginKeeps(s, t, call);
    case LockWriter(ch) => PcKeeps(s, u, ch, Locked);
    case Number(ch) => NumberKeeps(s, ch);
    case RegisterCall(ch) => RegisterKeeps(s, ch);
    case WriteSome(ch, n) => WriteKeeps(s, ch, n);
    case WriteFails(ch) => PcKeeps(s, u, ch, Failed(s.Pc(ch).seqnum));
    case RollBack(ch) => RollBackKeeps(s, ch);
    case Insert(ch) => InsertKeeps(s, ch);
    case TakeMail(ch) => TakeMailKeeps(s, ch);
    case Resume(t, ok) =>
  }

  // --- The steps of the reader ---

  /** The reader goes from one place where it carries nothing to another, and does not start the drain. */
  lemma ReaderTurns(s: State, u: State)
    requires Inv(s) && !s.reader.AtSend? && !s.reader.Drains()
    requires u == s.(reader := u.reader, inp := u.inp, taken := u.taken)
    requires u.reader.AtHeader? || u.reader.AtLookup? || u.reader.AtUnlink? || u.reader.Stopping?
    ensures Inv(u)
  {}

  lemma ReadHeaderKeeps(s: State)
    requires Inv(s) && ReaderEnabled(s, ReadHeader)
    ensures Inv(DoReader(s, ReadHeader))
  {
    hide Inv, U32At, RetSubmitFrom, RetUnlinkFrom;
    ReaderTurns(s, DoReader(s, ReadHeader));
  }

  lemma PendingShrinks(calls: Calls, issued: map<u32, Chan>, sh: Shared, sh': Shared,
                       answers: map<u32, RetSubmit>, drains: bool, drains': bool)
    requires PendingInv(calls, issued, sh, answers, drains) && (drains ==> drains')
    requires sh'.pending.Keys <= sh.pending.Keys && sh'.unlinks.Keys <= sh.unlinks.Keys
    requires forall q | q in sh'.pending :: sh'.pending[q] == sh.pending[q]
    requires forall u | u in sh'.unlinks :: sh'.unlinks[u] == sh.unlinks[u]
    ensures PendingInv(calls, issued, sh', answers, drains')
  {
    forall q | q in sh'.pending
      ensures PendingOk(calls, issued, q, sh'.pending[q], answers, drains')
    {
      assert PendingOk(calls, issued, q, sh.pending[q], answers, drains);
    }
  }

  /** A submission taken out of `pending` may be recorded as answered. */
  lemma AnswerRecorded(calls: Calls, issued: map<u32, Chan>, sh: Shared, answers: map<u32, RetSubmit>, drains: bool,
                       ret: RetSubmit)
    requires PendingInv(calls, issued, sh, answers, drains) && AnswersInv(calls, issued, answers)
    requires IsSubmit(calls, issued, ret.seqnum, ret.direction) && ret.WellShaped() && ret.seqnum !in sh.pending
    ensures PendingInv(calls, issued, sh, answers[ret.seqnum := ret], drains)
    ensures AnswersInv(calls, issued, answers[ret.seqnum := ret])
  {
    forall q | q in sh.pending
      ensures PendingOk(calls, issued, q, sh.pending[q], answers[ret.seqnum := ret], drains)
    {
      assert PendingOk(calls, issued, q, sh.pending[q], answers, drains);
    }
  }

  /** New answers do not change what callers have been told. */
  lemma ResultsKept(calls: Calls, mail: map<Chan, Result>, answers: map<u32, RetSubmit>, drains: bool, ret: RetSubmit)
    requires MailInv(calls, mail, answers, drains) && ReturnedInv(calls, answers, drains)
    requires ret.seqnum !in answers
    ensures MailInv(calls, mail, answers[ret.seqnum := ret], drains)
    ensures ReturnedInv(calls, answers[ret.seqnum := ret], drains)
  {}

  /** Where senders are does not depend on a reader that holds none and has not stopped. */
  lemma QuietReader(calls: Calls, bridge: map<u32, Chan>, mail: map<Chan, Result>, reader: Reader, reader': Reader)
    requires SenderInv(calls, bridge, mail, reader) && WaitingInv(calls, bridge, mail, reader)
    requires !reader.AtSend? && !reader.Stopped? && !reader'.AtSend? && !reader'.Stopped?
    ensures SenderInv(calls, bridge, mail, reader') && WaitingInv(calls, bridge, mail, reader')
  {
    forall ch | 0 <= ch < |calls|
      ensures WaitingOk(calls[ch], ch, bridge, mail, reader')
    {
      assert WaitingOk(calls[ch], ch, bridge, mail, reader);
    }
  }

  lemma ReadPayloadKeeps(s: State)
    requires Inv(s) && ReaderEnabled(s, ReadPayload)
    ensures Inv(DoReader(s, ReadPayload))
  {
    var h := s.reader.submit;
    var ret := RetSubmit(h.seqnum, h.status, h.actualLength, s.inp[..h.actualLength], s.reader.direction);
    hide WriterInv, IssuedInv, PendingInv, AnswersInv, MailInv, ReturnedInv, SendsInv, IsSubmit, SenderInv, WaitingInv;
    QuietReader(s.calls, s.bridge, s.mail, s.reader, AtDeliver(ret));
    AnswerRecorded(s.calls, s.issued, s.shared, s.answers, s.reader.Drains(), ret);
    ResultsKept(s.calls, s.mail, s.answers, s.reader.Drains(), ret);
  }

  lemma LookupKeeps(s: State)
    requires Inv(s) && ReaderEnabled(s, LookupPending)
    ensures Inv(DoReader(s, LookupPending))
  {
    hide WriterInv, IssuedInv, PendingInv, AnswersInv, CarriedInv, SenderInv, MailInv, ReturnedInv, WaitingInv,
         SendsInv;
    var h := s.reader.submit;
    var q := h.seqnum;
    var sh := s.shared.(pending := s.shared.pending - {q});
    PendingShrinks(s.calls, s.issued, s.shared, sh, s.answers, s.reader.Drains(), s.reader.Drains());
    if q in s.shared.pending {
      var d := s.shared.pending[q];
      PendingIsOk(s, q);
      if d.In? && h.actualLength > 0 {
        LookedUpPayload(s, sh);
      } else {
        LookedUpWhole(s, sh, RetSubmit(q, h.status, h.actualLength, [], d));
      }
    } else {
      LookedUpNothing(s, sh);
    }
  }

  lemma PendingIsOk(s: State, q: u32)
    requires PendingInv(s.calls, s.issued, s.shared, s.answers, s.reader.Drains()) && q in s.shared.pending
    ensures PendingOk(s.calls, s.issued, q, s.shared.pending[q], s.answers, s.reader.Drains())
  {}

  lemma LookedUpNothing(s: State, sh: Shared)
    requires Inv(s) && s.reader.AtLookup?
    requires PendingInv(s.calls, s.issued, sh, s.answers, s.reader.Drains())
    ensures Inv(s.(shared := sh, reader := Stopping))
  {
    hide WriterInv, IssuedInv, SendsInv, PendingInv, AnswersInv, MailInv, ReturnedInv;
  }

  lemma LookedUpPayload(s: State, sh: Shared)
    requires Inv(s) && s.reader.AtLookup?
    requires sh == s.shared.(pending := s.shared.pending - {s.reader.submit.seqnum})
    requires PendingInv(s.calls, s.issued, sh, s.answers, s.reader.Drains())
    requires IsSubmit(s.calls, s.issued, s.reader.submit.seqnum, In) && s.reader.submit.seqnum !in s.answers
    ensures Inv(s.(shared := sh, reader := AtPayload(s.reader.submit, In)))
  {
    hide WriterInv, IssuedInv, SendsInv, IsSubmit, PendingInv, AnswersInv, MailInv, ReturnedInv;
  }

  lemma LookedUpWhole(s: State, sh: Shared, ret: RetSubmit)
    requires Inv(s) && s.reader.AtLookup?
    requires sh == s.shared.(pending := s.shared.pending - {ret.seqnum})
    requires PendingInv(s.calls, s.issued, sh, s.answers, s.reader.Drains())
    requires IsSubmit(s.calls, s.issued, ret.seqnum, ret.direction) && ret.seqnum !in s.answers && ret.WellShaped()
    ensures Inv(s.(shared := sh, reader := AtDeliver(ret), answers := s.answers[ret.seqnum := ret]))
  {
    hide WriterInv, IssuedInv, SendsInv, IsSubmit, PendingInv, AnswersInv, MailInv, ReturnedInv;
    AnswerRecorded(s.calls, s.issued, sh, s.answers, s.reader.Drains(), ret);
    ResultsKept(s.calls, s.mail, s.answers, s.reader.Drains(), ret);
  }

  lemma DeliverKeeps(s: State)
    requires Inv(s) && ReaderEnabled(s, Deliver)
    ensures Inv(DoReader(s, Deliver))
  {
    hide WriterInv, PendingInv, AnswersInv, MailInv, ReturnedInv, SendsInv;
    var q := s.reader.ret.seqnum;
    if q in s.bridge {
      assert WaitsOn(s.calls, q, s.bridge[q]);
      TakenFromBridge(s.calls, s.issued, s.next, s.bridge, s.mail, s.reader, AtSend(s.bridge[q], s.reader.ret));
    }
  }

  lemma TakenFromBridge(calls: Calls, issued: map<u32, Chan>, next: u32, bridge: map<u32, Chan>,
                        mail: map<Chan, Result>, reader: Reader, reader': Reader)
    requires IssuedInv(calls, issued, next) && SenderInv(calls, bridge, mail, reader)
    requires WaitingInv(calls, bridge, mail, reader) && reader.AtDeliver?
    requires reader.ret.seqnum in bridge && reader' == AtSend(bridge[reader.ret.seqnum], reader.ret)
    ensures SenderInv(calls, bridge - {reader.ret.seqnum}, mail, reader')
    ensures WaitingInv(calls, bridge - {reader.ret.seqnum}, mail, reader')
  {
    forall ch | 0 <= ch < |calls|
      ensures WaitingOk(calls[ch], ch, bridge - {reader.ret.seqnum}, mail, reader')
    {
      assert WaitingOk(calls[ch], ch, bridge, mail, reader);
    }
  }

  lemma SendAnswerKeeps(s: State)
    requires Inv(s) && ReaderEnabled(s, SendAnswer)
    ensures Inv(DoReader(s, SendAnswer))
  {
    hide WriterInv, PendingInv, AnswersInv, ReturnedInv;
    var ch := s.reader.ch;
    assert WaitsOn(s.calls, s.reader.ret.seqnum, ch);
    SentKeeps(s.calls, s.issued, s.next, s.bridge, s.mail, s.sends, s.reader, AtHeader, ch, Delivered(s.reader.ret));
  }

  /** Using a sender that is in no map any more fills an empty channel. */
  lemma SentKeeps(calls: Calls, issued: map<u32, Chan>, next: u32, bridge: map<u32, Chan>, mail: map<Chan, Result>,
                  sends: multiset<Chan>, reader: Reader, reader': Reader, ch: Chan, r: Result)
    requires IssuedInv(calls, issued, next) && SenderInv(calls, bridge, mail, reader)
    requires WaitingInv(calls, bridge, mail, reader) && SendsInv(calls, mail, sends)
    requires ch < |calls| && calls[ch].pc.Waiting? && ch !in mail
    requires reader.AtSend? && reader.ch == ch && reader' == AtHeader
    ensures SenderInv(calls, bridge, mail[ch := r], reader')
    ensures WaitingInv(calls, bridge, mail[ch := r], reader')
    ensures SendsInv(calls, mail[ch := r], sends + multiset{ch})
  {
    var q := calls[ch].pc.seqnum;
    forall p | p in bridge
      ensures bridge[p] != ch
    {
      assert WaitsOn(calls, p, bridge[p]);
    }
    forall c | 0 <= c < |calls|
      ensures WaitingOk(calls[c], c, bridge, mail[ch := r], reader')
    {
      assert WaitingOk(calls[c], c, bridge, mail, reader);
    }
  }

  lemma SettleKeeps(s: State)
    requires Inv(s) && ReaderEnabled(s, SettleUnlinkCall)
    ensures Inv(DoReader(s, SettleUnlinkCall))
  {
    hide WriterInv, IssuedInv, AnswersInv, MailInv, ReturnedInv, SendsInv, PendingInv;
    var h := s.reader.unlink;
    PendingShrinks(s.calls, s.issued, s.shared, SettleUnlink(s.shared, h.seqnum, h.status), s.answers, false, false);
  }

  lemma BeginDrainKeeps(s: State)
    requires Inv(s) && ReaderEnabled(s, BeginDrain)
    ensures Inv(DoReader(s, BeginDrain))
  {
    hide WriterInv, IssuedInv, AnswersInv, SendsInv, PendingInv;
    PendingShrinks(s.calls, s.issued, s.shared, s.shared, s.answers, false, true);
  }

  lemma DrainOneKeeps(s: State, q: u32)
    requires Inv(s) && ReaderEnabled(s, DrainOne(q))
    ensures Inv(DoReader(s, DrainOne(q)))
  {
    hide WriterInv, AnswersInv, ReturnedInv, PendingInv;
    assert WaitsOn(s.calls, q, s.bridge[q]);
    DrainedKeeps(s.calls, s.issued, s.next, s.bridge, s.mail, s.sends, s.reader, q);
  }

  lemma DrainedKeeps(calls: Calls, issued: map<u32, Chan>, next: u32, bridge: map<u32, Chan>,
                     mail: map<Chan, Result>, sends: multiset<Chan>, reader: Reader, q: u32)
    requires IssuedInv(calls, issued, next) && SenderInv(calls, bridge, mail, reader)
    requires WaitingInv(calls, bridge, mail, reader) && SendsInv(calls, mail, sends)
    requires reader.Draining? && q in bridge
    ensures var ch := bridge[q];
            && SenderInv(calls, bridge - {q}, mail[ch := BrokenPipe], reader)
            && WaitingInv(calls, bridge - {q}, mail[ch := BrokenPipe], reader)
            && SendsInv(calls, mail[ch := BrokenPipe], sends + multiset{ch})
  {
    var ch := bridge[q];
    forall p | p in bridge - {q}
      ensures bridge[p] != ch
    {
      assert WaitsOn(calls, p, bridge[p]) && WaitsOn(calls, q, bridge[q]);
    }
    forall c | 0 <= c < |calls|
      ensures WaitingOk(calls[c], c, bridge - {q}, mail[ch := BrokenPipe], reader)
    {
      assert WaitingOk(calls[c], c, bridge, mail, reader);
    }
  }

  lemma EndDrainKeeps(s: State)
    requires Inv(s) && ReaderEnabled(s, EndDrain)
    ensures Inv(DoReader(s, EndDrain))
  {
    hide WriterInv, IssuedInv, AnswersInv, SendsInv, PendingInv, MailInv, ReturnedInv;
  }

  lemma ReaderKeeps(s: State, step: Step)
    requires Inv(s) && ReaderEnabled(s, step)
    ensures Inv(DoReader(s, step))
  {
    match step
    case ReadHeader => ReadHeaderKeeps(s);
    case ReadFails => ReaderTurns(s, DoReader(s, step));
    case LookupPending => LookupKeeps(s);
    case ReadPayload => ReadPayloadKeeps(s);
    case Deliver => DeliverKeeps(s);
    case SendAnswer => SendAnswerKeeps(s);
    case SettleUnlinkCall => SettleKeeps(s);
    case BeginDrain => BeginDrainKeeps(s);
    case DrainOne(q) => DrainOneKeeps(s, q);
    case EndDrain => EndDrainKeeps(s);
  }

  // --- Whole runs ---

  lemma StepKeeps(s: State, step: Step)
    requires Inv(s) && Enabled(s, step)
    ensures Inv(Do(s, step))
  {
    if ThreadEnabled(s, step) {
      ThreadKeeps(s, step);
    } else if ReaderEnabled(s, step) {
      ReaderKeeps(s, step);
    }
  }

  lemma {:induction false} RunKeeps(s: State, steps: seq<Step>)
    requires Inv(s) && Run(s, steps).Some?
    ensures Inv(Run(s, steps).value)
    decreases |steps|
  {
    hide Inv;
    if steps != [] {
      StepKeeps(s, steps[0]);
      RunKeeps(Do(s, steps[0]), steps[1..]);
    }
  }

  lemma InitInv(devid: u32)
    ensures Inv(Init(devid))
  {}
}
