/** Which thread a call belongs to, and where every submission that is no longer remembered has gone. */
module BridgeAccount {
  import opened Bytes
  import opened Protocol
  import opened Wire
  import opened Commands
  import opened Responses
  import opened BridgeSystem
  import opened BridgeSafety

  /** A thread is inside at most one call, and every call that has not returned has its thread inside. */
  ghost predicate ThreadInv(threads: map<Tid, Thread>, calls: Calls) {
    && (forall t | t in threads && threads[t].status.InCall? ::
          threads[t].status.ch < |calls| && calls[threads[t].status.ch].tid == t)
    && (forall ch | 0 <= ch < |calls| :: ThreadOk(threads, calls[ch], ch))
  }

  ghost predicate ThreadOk(threads: map<Tid, Thread>, c: CallState, ch: Chan) {
    c.tid in threads && (!c.pc.Returned? ==> threads[c.tid].status == InCall(ch))
  }

  /** The number of the submission the reader has taken out of `pending` and not yet disposed of. */
  ghost predicate ReaderHas(reader: Reader, q: u32) {
    || (reader.AtPayload? && reader.submit.seqnum == q)
    || (reader.AtDeliver? && reader.ret.seqnum == q)
    || (reader.AtSend? && reader.ret.seqnum == q)
  }

  ghost predicate AccountedFor(s: State, q: u32) {
    && q in s.issued && s.issued[q] < |s.calls|
    && (|| q in s.shared.pending || s.calls[s.issued[q]].pc.RolledBack()
        || ReaderHas(s.reader, q) || q in s.lost || q in s.cancelled || s.sends[s.issued[q]] == 1)
  }

  /** While the reader is alive, every registered submission is remembered, or the reader has it, or it
      was answered, lost or cancelled, or its write failed. */
  ghost predicate AccountInv(s: State) {
    s.reader.Live() ==> forall q, d | IsSubmit(s.calls, s.issued, q, d) :: AccountedFor(s, q)
  }

  ghost predicate CancelledInv(calls: Calls, issued: map<u32, Chan>, cancelled: map<u32, u32>) {
    forall q | q in cancelled :: IsUnlink(calls, issued, cancelled[q], q)
  }

  /** What the reader holds has not been sent to anyone. */
  ghost predicate UnsentInv(issued: map<u32, Chan>, reader: Reader, sends: multiset<Chan>) {
    forall q | q in issued && ReaderHas(reader, q) :: sends[issued[q]] == 0
  }

  /** A lost response is never delivered: the reader will not have it again and its caller is not told. */
  ghost predicate LostInv(calls: Calls, issued: map<u32, Chan>, mail: map<Chan, Result>, answers: map<u32, RetSubmit>,
                          lost: set<u32>, reader: Reader)
  {
    forall q | q in lost ::
      && q in answers && q in issued && issued[q] < |calls| && !ReaderHas(reader, q)
      && Undelivered(calls[issued[q]].pc, issued[q], mail)
  }

  ghost predicate Undelivered(pc: Pc, ch: Chan, mail: map<Chan, Result>) {
    && (ch in mail ==> !mail[ch].Delivered?) && (pc.Returned? ==> !pc.result.Delivered?)
  }

  ghost predicate BookInv(s: State) {
    && ThreadInv(s.threads, s.calls) && AccountInv(s) && CancelledInv(s.calls, s.issued, s.cancelled)
    && UnsentInv(s.issued, s.reader, s.sends)
    && LostInv(s.calls, s.issued, s.mail, s.answers, s.lost, s.reader)
  }

  // --- Threads ---

  lemma ThreadMove(threads: map<Tid, Thread>, calls: Calls, ch: Chan, pc: Pc)
    requires ThreadInv(threads, calls) && ch < |calls| && !calls[ch].pc.Returned?
    ensures ThreadInv(threads, Move(calls, ch, pc))
  {
    forall c | 0 <= c < |calls|
      ensures ThreadOk(threads, Move(calls, ch, pc)[c], c)
    {
      assert ThreadOk(threads, calls[c], c);
    }
  }

  lemma StepKeepsThreads(s: State, step: Step)
    requires ThreadInv(s.threads, s.calls) && Enabled(s, step)
    ensures ThreadInv(Do(s, step).threads, Do(s, step).calls)
  {
    hide ThreadInv, ThreadEnabled, ReaderEnabled, ServerEnabled, DoThread, DoReader, DoServer;
    if ThreadEnabled(s, step) {
      CallKeepsThreads(s, step);
    } else if ReaderEnabled(s, step) {
      ReaderLeavesThreads(s, step);
    } else {
      ServerLeavesThreads(s, step);
    }
  }

  lemma ReaderLeavesThreads(s: State, step: Step)
    requires ReaderEnabled(s, step)
    ensures DoReader(s, step).threads == s.threads && DoReader(s, step).calls == s.calls
  {
    hide U32At, RetSubmitFrom, RetUnlinkFrom, SettleUnlink;
  }

  lemma ServerLeavesThreads(s: State, step: Step)
    requires ServerEnabled(s, step)
    ensures DoServer(s, step).threads == s.threads && DoServer(s, step).calls == s.calls
  {
    hide Reply.AsBytes;
  }

  lemma CallKeepsThreads(s: State, step: Step)
    requires ThreadInv(s.threads, s.calls) && ThreadEnabled(s, step)
    ensures ThreadInv(DoThread(s, step).threads, DoThread(s, step).calls)
  {
    hide ThreadInv, Command.AsBytes;
    var u := DoThread(s, step);
    match step
    case Spawn(t, kind) => SpawnKeepsThreads(s, t, kind);
    case Begin(t, call) => BeginKeepsThreads(s, t, call);
    case Resume(t, ok) => ResumeKeepsThreads(s, t, ok);
    case LockWriter(ch) => ThreadMove(s.threads, s.calls, ch, u.calls[ch].pc);
    case Number(ch) => ThreadMove(s.threads, s.calls, ch, u.calls[ch].pc);
    case RegisterCall(ch) => ThreadMove(s.threads, s.calls, ch, u.calls[ch].pc);
    case WriteSome(ch, n) => ThreadMove(s.threads, s.calls, ch, u.calls[ch].pc);
    case WriteFails(ch) => ThreadMove(s.threads, s.calls, ch, u.calls[ch].pc);
    case RollBack(ch) => ThreadMove(s.threads, s.calls, ch, u.calls[ch].pc);
    case Insert(ch) => ThreadMove(s.threads, s.calls, ch, u.calls[ch].pc);
    case TakeMail(ch) => ThreadMove(s.threads, s.calls, ch, u.calls[ch].pc);
  }

  lemma SpawnKeepsThreads(s: State, t: Tid, kind: Kind)
    requires ThreadInv(s.threads, s.calls) && t !in s.threads
    ensures ThreadInv(s.threads[t := Thread(kind, Ready, [], [])], s.calls)
  {
    forall c | 0 <= c < |s.calls|
      ensures ThreadOk(s.threads[t := Thread(kind, Ready, [], [])], s.calls[c], c)
    {
      assert ThreadOk(s.threads, s.calls[c], c);
    }
  }

  lemma BeginKeepsThreads(s: State, t: Tid, call: Call)
    requires ThreadInv(s.threads, s.calls) && ThreadEnabled(s, Begin(t, call))
    ensures var u := DoThread(s, Begin(t, call)); ThreadInv(u.threads, u.calls)
  {
    var u := DoThread(s, Begin(t, call));
    forall c | 0 <= c < |u.calls|
      ensures ThreadOk(u.threads, u.calls[c], c)
    {
      if c < |s.calls| {
        assert ThreadOk(s.threads, s.calls[c], c);
      }
    }
  }

  lemma ResumeKeepsThreads(s: State, t: Tid, ok: bool)
    requires ThreadInv(s.threads, s.calls) && ThreadEnabled(s, Resume(t, ok))
    ensures var u := DoThread(s, Resume(t, ok)); ThreadInv(u.threads, u.calls)
  {
    var u := DoThread(s, Resume(t, ok));
    forall c | 0 <= c < |u.calls|
      ensures ThreadOk(u.threads, u.calls[c], c)
    {
      assert ThreadOk(s.threads, s.calls[c], c);
    }
  }

  // --- The account ---

  /** A step that takes nothing out of the account, and registers nothing new unremembered, keeps it. */
  lemma AccountKept(s: State, u: State)
    requires AccountInv(s) && (u.reader.Live() ==> s.reader.Live())
    requires forall q, d | IsSubmit(u.calls, u.issued, q, d) ::
               q in u.shared.pending ||
               (IsSubmit(s.calls, s.issued, q, d) &&
                (AccountedFor(s, q) ==> AccountedFor(u, q)))
    ensures AccountInv(u)
  {}

  /** The step's effect on one submission's account. */
  lemma ThreadKeepsAccount(s: State, step: Step)
    requires Inv(s) && AccountInv(s) && ThreadEnabled(s, step)
    ensures AccountInv(DoThread(s, step))
  {
    hide Inv, AccountInv, AccountedFor, IsSubmit, ThreadEnabled;
    var u := DoThread(s, step);
    forall q, d | IsSubmit(u.calls, u.issued, q, d)
      ensures q in u.shared.pending ||
               (IsSubmit(s.calls, s.issued, q, d) &&
                (AccountedFor(s, q) ==> AccountedFor(u, q)))
    {
      ThreadAccount(s, step, q, d);
    }
    ThreadLeavesRest(s, step);
    hide DoThread;
    AccountKept(s, u);
  }

  lemma ThreadLeavesRest(s: State, step: Step)
    requires ThreadEnabled(s, step)
    ensures DoThread(s, step).reader == s.reader
  {
    hide Command.AsBytes;
  }

  lemma ThreadAccount(s: State, step: Step, q: u32, d: Direction)
    requires Inv(s) && ThreadEnabled(s, step) && IsSubmit(DoThread(s, step).calls, DoThread(s, step).issued, q, d)
    ensures var u := DoThread(s, step);
            q in u.shared.pending || (IsSubmit(s.calls, s.issued, q, d) && (AccountedFor(s, q) ==> AccountedFor(u, q)))
  {
    hide AccountedFor, IsSubmit, Command.AsBytes, PendingInv, AnswersInv, CarriedInv, SenderInv, MailInv,
         ReturnedInv, WaitingInv, SendsInv, IssuedInv, WriterInv;
    var u := DoThread(s, step);
    match step
    case Spawn(_, _) => OutsideAccount(s, step, q, d);
    case Begin(_, _) => OutsideAccount(s, step, q, d);
    case Resume(_, _) => OutsideAccount(s, step, q, d);
    case LockWriter(ch) => AccountMove(s, u, ch, q, d);
    case Number(ch) => AccountNumber(s, ch, q, d);
    case RegisterCall(ch) => AccountRegister(s, ch, q, d);
    case WriteSome(ch, n) => AccountMove(s, u, ch, q, d);
    case WriteFails(ch) => AccountMove(s, u, ch, q, d);
    case RollBack(ch) => AccountRollBack(s, ch, q, d);
    case Insert(ch) => AccountMove(s, u, ch, q, d);
    case TakeMail(ch) => AccountMove(s, u, ch, q, d);
  }

  /** Steps outside any call. */
  lemma OutsideAccount(s: State, step: Step, q: u32, d: Direction)
    requires IssuedInv(s.calls, s.issued, s.next) && (step.Spawn? || step.Begin? || step.Resume?)
    requires ThreadEnabled(s, step) && IsSubmit(DoThread(s, step).calls, DoThread(s, step).issued, q, d)
    ensures IsSubmit(s.calls, s.issued, q, d) && (AccountedFor(s, q) ==> AccountedFor(DoThread(s, step), q))
  {
    hide AccountedFor, IsSubmit, IssuedInv;
    AccountFrame(s, DoThread(s, step), q, d);
  }

  lemma AccountFrame(s: State, u: State, q: u32, d: Direction)
    requires IsSubmit(u.calls, u.issued, q, d) && u.issued == s.issued && IssuedInv(s.calls, s.issued, s.next)
    requires |s.calls| <= |u.calls| && (forall ch | 0 <= ch < |s.calls| :: u.calls[ch] == s.calls[ch])
    requires u.shared == s.shared && u.reader == s.reader && u.lost == s.lost && u.cancelled == s.cancelled
    requires u.sends == s.sends
    ensures IsSubmit(s.calls, s.issued, q, d) && (AccountedFor(s, q) ==> AccountedFor(u, q))
  {}

  lemma AccountMove(s: State, u: State, ch: Chan, q: u32, d: Direction)
    requires IsSubmit(u.calls, u.issued, q, d) && u.issued == s.issued && IssuedInv(s.calls, s.issued, s.next)
    requires ch < |s.calls| && |u.calls| == |s.calls| && u.calls == Move(s.calls, ch, u.calls[ch].pc)
    requires !s.calls[ch].pc.Numbered? && !s.calls[ch].pc.RolledBack()
    requires s.calls[ch].pc.HasSeqnum() == u.calls[ch].pc.HasSeqnum()
    requires u.shared == s.shared && u.reader == s.reader && u.lost == s.lost && u.cancelled == s.cancelled
    requires u.sends == s.sends
    ensures IsSubmit(s.calls, s.issued, q, d) && (AccountedFor(s, q) ==> AccountedFor(u, q))
  {}

  lemma AccountNumber(s: State, ch: Chan, q: u32, d: Direction)
    requires ThreadEnabled(s, Number(ch)) && IssuedInv(s.calls, s.issued, s.next)
    requires var u := DoThread(s, Number(ch)); IsSubmit(u.calls, u.issued, q, d)
    ensures var u := DoThread(s, Number(ch));
            IsSubmit(s.calls, s.issued, q, d) &&
            (AccountedFor(s, q) ==> AccountedFor(u, q))
  {
    assert q != s.next;
  }

  lemma AccountRegister(s: State, ch: Chan, q: u32, d: Direction)
    requires ThreadEnabled(s, RegisterCall(ch)) && IssuedInv(s.calls, s.issued, s.next)
    requires var u := DoThread(s, RegisterCall(ch)); IsSubmit(u.calls, u.issued, q, d)
    ensures var u := DoThread(s, RegisterCall(ch));
            q in u.shared.pending ||
            (IsSubmit(s.calls, s.issued, q, d) && (AccountedFor(s, q) ==> AccountedFor(u, q)))
  {
    if q != s.Pc(ch).seqnum {
      assert s.issued[q] != ch;
    }
  }

  lemma AccountRollBack(s: State, ch: Chan, q: u32, d: Direction)
    requires ThreadEnabled(s, RollBack(ch)) && IssuedInv(s.calls, s.issued, s.next)
    requires var u := DoThread(s, RollBack(ch)); IsSubmit(u.calls, u.issued, q, d)
    ensures var u := DoThread(s, RollBack(ch));
            IsSubmit(s.calls, s.issued, q, d) && (AccountedFor(s, q) ==> AccountedFor(u, q))
  {
    if q != s.Pc(ch).seqnum {
      assert s.issued[q] != ch;
    }
  }

  lemma ReaderKeepsAccount(s: State, step: Step)
    requires Inv(s) && AccountInv(s) && ReaderEnabled(s, step)
    ensures AccountInv(DoReader(s, step))
  {
    hide AccountInv, AccountedFor, IsSubmit, PendingInv, AnswersInv, MailInv, ReturnedInv, WaitingInv, SendsInv,
         IssuedInv, WriterInv, U32At, RetSubmitFrom, RetUnlinkFrom;
    var u := DoReader(s, step);
    forall q, d | IsSubmit(u.calls, u.issued, q, d)
      ensures u.reader.Live() ==> (AccountedFor(s, q) ==> AccountedFor(u, q))
    {
      OneKeepsAccount(s, step, q, d);
    }
    assert AccountInv(u) by { ReaderAccount(s, u); }
  }

  lemma ReaderAccount(s: State, u: State)
    requires AccountInv(s) && u.calls == s.calls && u.issued == s.issued && (u.reader.Live() ==> s.reader.Live())
    requires forall q, d | IsSubmit(u.calls, u.issued, q, d) ::
               u.reader.Live() ==> (AccountedFor(s, q) ==> AccountedFor(u, q))
    ensures AccountInv(u)
  {}

  lemma OneKeepsAccount(s: State, step: Step, q: u32, d: Direction)
    requires Inv(s) && ReaderEnabled(s, step) && IsSubmit(s.calls, s.issued, q, d)
    ensures var u := DoReader(s, step);
            u.reader.Live() ==> (AccountedFor(s, q) ==> AccountedFor(u, q))
  {
    hide PendingInv, AnswersInv, MailInv, ReturnedInv, WaitingInv, WriterInv, SendsInv,
         U32At, RetSubmitFrom, RetUnlinkFrom;
    if step.SendAnswer? && s.reader.ret.seqnum == q {
      SendSettles(s.calls, s.issued, s.next, s.mail, s.sends, q, s.reader.ch);
    }
  }

  lemma SendSettles(calls: Calls, issued: map<u32, Chan>, next: u32, mail: map<Chan, Result>,
                    sends: multiset<Chan>, q: u32, ch: Chan)
    requires IssuedInv(calls, issued, next) && SendsInv(calls, mail, sends)
    requires WaitsOn(calls, q, ch) && ch !in mail
    ensures q in issued && issued[q] == ch && sends[ch] == 0
  {}

  // --- The rest of the book ---

  lemma StepKeepsCancelled(s: State, step: Step)
    requires Inv(s) && CancelledInv(s.calls, s.issued, s.cancelled) && Enabled(s, step)
    ensures var u := Do(s, step); CancelledInv(u.calls, u.issued, u.cancelled)
  {
    hide Inv, IsUnlink, CancelledInv, ThreadEnabled, ReaderEnabled, DoThread, DoReader, Reply.AsBytes;
    if ThreadEnabled(s, step) {
      ThreadKeepsCancelled(s, step);
    } else if ReaderEnabled(s, step) {
      ReaderKeepsCancelled(s, step);
    }
  }

  lemma ReaderKeepsCancelled(s: State, step: Step)
    requires Inv(s) && CancelledInv(s.calls, s.issued, s.cancelled) && ReaderEnabled(s, step)
    ensures var u := DoReader(s, step); CancelledInv(u.calls, u.issued, u.cancelled)
  {
    hide Inv, CancelledInv, U32At, RetSubmitFrom, RetUnlinkFrom;
    if step.SettleUnlinkCall? {
      SettleKeepsCancelled(s);
    }
  }

  lemma ThreadKeepsCancelled(s: State, step: Step)
    requires Inv(s) && CancelledInv(s.calls, s.issued, s.cancelled) && ThreadEnabled(s, step)
    ensures var u := DoThread(s, step); CancelledInv(u.calls, u.issued, u.cancelled)
  {
    hide Inv, IsUnlink, Command.AsBytes, CancelledInv, Registered;
    var u := DoThread(s, step);
    match step
    case Spawn(_, _) =>
    case Resume(_, _) =>
    case Begin(t, call) => CancelledFrame(s.calls, s.issued, s.cancelled, u.calls, u.issued);
    case Number(ch) => NumberKeepsCancelled(s, ch);
    case LockWriter(ch) => CancelledMove(s.calls, s.issued, s.cancelled, ch, u.calls[ch].pc);
    case RegisterCall(ch) => CancelledMove(s.calls, s.issued, s.cancelled, ch, u.calls[ch].pc);
    case WriteSome(ch, _) => CancelledMove(s.calls, s.issued, s.cancelled, ch, u.calls[ch].pc);
    case WriteFails(ch) => CancelledMove(s.calls, s.issued, s.cancelled, ch, u.calls[ch].pc);
    case RollBack(ch) => CancelledMove(s.calls, s.issued, s.cancelled, ch, u.calls[ch].pc);
    case Insert(ch) => CancelledMove(s.calls, s.issued, s.cancelled, ch, u.calls[ch].pc);
    case TakeMail(ch) => CancelledMove(s.calls, s.issued, s.cancelled, ch, u.calls[ch].pc);
  }

  lemma NumberKeepsCancelled(s: State, ch: Chan)
    requires Inv(s) && CancelledInv(s.calls, s.issued, s.cancelled) && ThreadEnabled(s, Number(ch))
    ensures CancelledInv(Move(s.calls, ch, Numbered(s.next)), s.issued[s.next := ch], s.cancelled)
  {
    hide AnswersInv, MailInv, ReturnedInv, WaitingInv, SendsInv, SenderInv, CarriedInv, PendingInv, CancelledInv;
    NumberedNext(s.calls, s.issued, s.next, ch);
    CancelledNumber(s.calls, s.issued, s.cancelled, ch, s.next);
  }

  lemma CancelledFrame(calls: Calls, issued: map<u32, Chan>, cancelled: map<u32, u32>, calls': Calls,
                       issued': map<u32, Chan>)
    requires CancelledInv(calls, issued, cancelled) && issued' == issued && |calls| <= |calls'|
    requires forall ch | 0 <= ch < |calls| :: calls'[ch] == calls[ch]
    ensures CancelledInv(calls', issued', cancelled)
  {}

  lemma CancelledNumber(calls: Calls, issued: map<u32, Chan>, cancelled: map<u32, u32>, ch: Chan, next: u32)
    requires CancelledInv(calls, issued, cancelled) && ch < |calls|
    requires forall q | q in issued :: q != next && issued[q] != ch
    ensures CancelledInv(Move(calls, ch, Numbered(next)), issued[next := ch], cancelled)
  {
    forall q | q in cancelled
      ensures IsUnlink(Move(calls, ch, Numbered(next)), issued[next := ch], cancelled[q], q)
    {
      KindNumber(calls, issued, ch, next, cancelled[q]);
    }
  }

  lemma CancelledMove(calls: Calls, issued: map<u32, Chan>, cancelled: map<u32, u32>, ch: Chan, pc: Pc)
    requires CancelledInv(calls, issued, cancelled)
    requires ch < |calls| && (calls[ch].pc.HasSeqnum() ==> Follows(calls[ch].pc, pc))
    ensures CancelledInv(Move(calls, ch, pc), issued, cancelled)
  {
    forall q | q in cancelled
      ensures IsUnlink(Move(calls, ch, pc), issued, cancelled[q], q)
    {
      KindMove(calls, issued, ch, pc, cancelled[q]);
    }
  }

  lemma SettleKeepsCancelled(s: State)
    requires Inv(s) && CancelledInv(s.calls, s.issued, s.cancelled) && ReaderEnabled(s, SettleUnlinkCall)
    ensures CancelledInv(s.calls, s.issued, DoReader(s, SettleUnlinkCall).cancelled)
  {
    hide AnswersInv, MailInv, ReturnedInv, WaitingInv, SendsInv, SenderInv, CarriedInv, IsUnlink, IssuedInv, WriterInv;
  }

  lemma StepKeepsUnsent(s: State, step: Step)
    requires Inv(s) && UnsentInv(s.issued, s.reader, s.sends) && Enabled(s, step)
    ensures var u := Do(s, step); UnsentInv(u.issued, u.reader, u.sends)
  {
    hide Inv, UnsentInv, ThreadEnabled, ReaderEnabled, DoThread, DoReader, Reply.AsBytes;
    if ThreadEnabled(s, step) {
      ThreadKeepsUnsent(s, step);
    } else if ReaderEnabled(s, step) {
      ReaderKeepsUnsent(s, step);
    }
  }

  lemma ThreadKeepsUnsent(s: State, step: Step)
    requires Inv(s) && UnsentInv(s.issued, s.reader, s.sends) && ThreadEnabled(s, step)
    ensures var u := DoThread(s, step); UnsentInv(u.issued, u.reader, u.sends)
  {
    hide Inv, UnsentInv, Command.AsBytes;
    if step.Number? {
      NumberKeepsUnsent(s, step.ch);
    }
  }

  lemma ReaderKeepsUnsent(s: State, step: Step)
    requires Inv(s) && UnsentInv(s.issued, s.reader, s.sends) && ReaderEnabled(s, step)
    ensures var u := DoReader(s, step); UnsentInv(u.issued, u.reader, u.sends)
  {
    hide Inv, U32At, RetSubmitFrom, RetUnlinkFrom, SettleUnlink;
    if step.LookupPending? {
      LookupKeepsUnsent(s);
    }
  }

  lemma NumberKeepsUnsent(s: State, ch: Chan)
    requires Inv(s) && UnsentInv(s.issued, s.reader, s.sends) && ThreadEnabled(s, Number(ch))
    ensures UnsentInv(s.issued[s.next := ch], s.reader, s.sends)
  {
    hide MailInv, ReturnedInv, WaitingInv, PendingInv, SendsInv, SenderInv, WriterInv;
    assert forall q | ReaderHas(s.reader, q) :: q in s.issued;
  }

  lemma LookupKeepsUnsent(s: State)
    requires Inv(s) && UnsentInv(s.issued, s.reader, s.sends) && ReaderEnabled(s, LookupPending)
    ensures var u := DoReader(s, LookupPending); UnsentInv(u.issued, u.reader, u.sends)
  {
    hide WriterInv, IssuedInv, AnswersInv, ReturnedInv, WaitingInv, CarriedInv, SenderInv, MailInv, SendsInv,
         PendingInv;
    var q := s.reader.submit.seqnum;
    if q in s.shared.pending {
      RememberedIsUnsent(s.calls, s.issued, s.shared, s.answers, s.mail, s.sends, q);
    }
  }

  lemma RememberedIsUnsent(calls: Calls, issued: map<u32, Chan>, sh: Shared, answers: map<u32, RetSubmit>,
                           mail: map<Chan, Result>, sends: multiset<Chan>, q: u32)
    requires PendingInv(calls, issued, sh, answers, false) && MailInv(calls, mail, answers, false)
    requires SendsInv(calls, mail, sends) && q in sh.pending
    ensures q in issued && sends[issued[q]] == 0
  {
    assert PendingOk(calls, issued, q, sh.pending[q], answers, false);
    assert issued[q] in mail ==> GoodResult(q, mail[issued[q]], answers, false);
  }

  // --- Lost responses ---

  lemma LostMove(calls: Calls, issued: map<u32, Chan>, mail: map<Chan, Result>, answers: map<u32, RetSubmit>,
                 lost: set<u32>, reader: Reader, ch: Chan, pc: Pc)
    requires LostInv(calls, issued, mail, answers, lost, reader) && ch < |calls|
    requires pc.Returned? ==> !pc.result.Delivered?
    ensures LostInv(Move(calls, ch, pc), issued, mail, answers, lost, reader)
  {}

  lemma ThreadKeepsLost(s: State, step: Step)
    requires Inv(s) && LostInv(s.calls, s.issued, s.mail, s.answers, s.lost, s.reader) && ThreadEnabled(s, step)
    ensures var u := DoThread(s, step); LostInv(u.calls, u.issued, u.mail, u.answers, u.lost, u.reader)
  {
    hide WriterInv, PendingInv, AnswersInv, CarriedInv, SenderInv, MailInv, ReturnedInv, WaitingInv, SendsInv,
         IssuedInv, LostInv, Command.AsBytes;
    var u := DoThread(s, step);
    match step
    case Spawn(_, _) =>
    case Resume(_, _) =>
    case Begin(t, call) => LostGrows(s, u);
    case Number(ch) =>
      IssuedIsOlder(s.calls, s.issued, s.next);
      LostGrowsNumber(s, ch);
    case TakeMail(ch) => TakeMailKeepsLost(s, ch);
    case LockWriter(ch) => LostMove(s.calls, s.issued, s.mail, s.answers, s.lost, s.reader, ch, u.calls[ch].pc);
    case RegisterCall(ch) => LostMove(s.calls, s.issued, s.mail, s.answers, s.lost, s.reader, ch, u.calls[ch].pc);
    case WriteSome(ch, _) => LostMove(s.calls, s.issued, s.mail, s.answers, s.lost, s.reader, ch, u.calls[ch].pc);
    case WriteFails(ch) => LostMove(s.calls, s.issued, s.mail, s.answers, s.lost, s.reader, ch, u.calls[ch].pc);
    case RollBack(ch) => LostMove(s.calls, s.issued, s.mail, s.answers, s.lost, s.reader, ch, u.calls[ch].pc);
    case Insert(ch) => LostMove(s.calls, s.issued, s.mail, s.answers, s.lost, s.reader, ch, u.calls[ch].pc);
  }

  lemma IssuedIsOlder(calls: Calls, issued: map<u32, Chan>, next: u32)
    requires IssuedInv(calls, issued, next)
    ensures next !in issued
  {}

  lemma LostGrows(s: State, u: State)
    requires LostInv(s.calls, s.issued, s.mail, s.answers, s.lost, s.reader)
    requires u.issued == s.issued && u.mail == s.mail && u.answers == s.answers && u.lost == s.lost
    requires u.reader == s.reader
    requires |s.calls| <= |u.calls| && forall ch | 0 <= ch < |s.calls| :: u.calls[ch] == s.calls[ch]
    ensures LostInv(u.calls, u.issued, u.mail, u.answers, u.lost, u.reader)
  {}

  lemma LostGrowsNumber(s: State, ch: Chan)
    requires LostInv(s.calls, s.issued, s.mail, s.answers, s.lost, s.reader) && ch < |s.calls| && s.next !in s.issued
    ensures LostInv(Move(s.calls, ch, Numbered(s.next)), s.issued[s.next := ch], s.mail, s.answers, s.lost, s.reader)
  {}

  lemma TakeMailKeepsLost(s: State, ch: Chan)
    requires LostInv(s.calls, s.issued, s.mail, s.answers, s.lost, s.reader)
    requires ch < |s.calls| && s.Pc(ch).Waiting? && ch in s.mail
    ensures LostInv(Move(s.calls, ch, Returned(s.Pc(ch).seqnum, s.mail[ch])), s.issued, s.mail - {ch}, s.answers,
                    s.lost, s.reader)
  {}

  lemma ReaderKeepsLost(s: State, step: Step)
    requires Inv(s) && LostInv(s.calls, s.issued, s.mail, s.answers, s.lost, s.reader) && ReaderEnabled(s, step)
    requires UnsentInv(s.issued, s.reader, s.sends)
    ensures var u := DoReader(s, step); LostInv(u.calls, u.issued, u.mail, u.answers, u.lost, u.reader)
  {
    hide WriterInv, PendingInv, AnswersInv, CarriedInv, SenderInv, MailInv, ReturnedInv, WaitingInv, SendsInv,
         IssuedInv, UnsentInv, U32At, RetSubmitFrom, RetUnlinkFrom, SettleUnlink;
    match step
    case LookupPending => LookupKeepsLost(s);
    case Deliver => DeliverKeepsLost(s);
    case SendAnswer => SendKeepsLost(s);
    case _ =>
  }

  lemma LookupKeepsLost(s: State)
    requires Inv(s) && LostInv(s.calls, s.issued, s.mail, s.answers, s.lost, s.reader) && s.reader.AtLookup?
    ensures var u := DoReader(s, LookupPending); LostInv(u.calls, u.issued, u.mail, u.answers, u.lost, u.reader)
  {
    hide WriterInv, AnswersInv, CarriedInv, SenderInv, MailInv, ReturnedInv, WaitingInv, SendsInv, IssuedInv;
    var q := s.reader.submit.seqnum;
    if q in s.shared.pending {
      assert PendingOk(s.calls, s.issued, q, s.shared.pending[q], s.answers, s.reader.Drains());
    }
  }

  lemma DeliverKeepsLost(s: State)
    requires Inv(s) && LostInv(s.calls, s.issued, s.mail, s.answers, s.lost, s.reader)
    requires UnsentInv(s.issued, s.reader, s.sends) && ReaderEnabled(s, Deliver)
    ensures var u := DoReader(s, Deliver); LostInv(u.calls, u.issued, u.mail, u.answers, u.lost, u.reader)
  {
    hide WriterInv, PendingInv, SenderInv, MailInv, ReturnedInv, WaitingInv, IssuedInv;
    var q := s.reader.ret.seqnum;
    assert IsSubmit(s.calls, s.issued, q, s.answers[q].direction);
    assert ReaderHas(s.reader, q);
    assert Undelivered(s.calls[s.issued[q]].pc, s.issued[q], s.mail);
  }

  lemma SendKeepsLost(s: State)
    requires Inv(s) && LostInv(s.calls, s.issued, s.mail, s.answers, s.lost, s.reader)
    requires ReaderEnabled(s, SendAnswer)
    ensures var u := DoReader(s, SendAnswer); LostInv(u.calls, u.issued, u.mail, u.answers, u.lost, u.reader)
  {
    hide WriterInv, PendingInv, AnswersInv, CarriedInv, MailInv, ReturnedInv, WaitingInv, SendsInv;
    var ch := s.reader.ch;
    assert WaitsOn(s.calls, s.reader.ret.seqnum, ch);
    assert ReaderHas(s.reader, s.reader.ret.seqnum);
    forall q | q in s.lost
      ensures s.issued[q] != ch
    {
      assert IssuedTo(s.calls, q, s.issued[q]);
    }
  }

  lemma StepKeepsLost(s: State, step: Step)
    requires Inv(s) && BookInv(s) && Enabled(s, step)
    ensures var u := Do(s, step); LostInv(u.calls, u.issued, u.mail, u.answers, u.lost, u.reader)
  {
    hide Inv, ThreadInv, CancelledInv, UnsentInv, AccountInv, LostInv, DoThread, DoReader, ThreadEnabled, ReaderEnabled,
         Reply.AsBytes;
    if ThreadEnabled(s, step) {
      ThreadKeepsLost(s, step);
    } else if ReaderEnabled(s, step) {
      ReaderKeepsLost(s, step);
    }
  }

  lemma StepKeepsBook(s: State, step: Step)
    requires Inv(s) && BookInv(s) && Enabled(s, step)
    ensures BookInv(Do(s, step))
  {
    StepKeepsLost(s, step);
    hide Inv, ThreadInv, CancelledInv, UnsentInv, AccountInv, LostInv, DoThread, DoReader, ThreadEnabled, ReaderEnabled;
    StepKeepsThreads(s, step);
    StepKeepsCancelled(s, step);
    StepKeepsUnsent(s, step);
    if ThreadEnabled(s, step) {
      ThreadKeepsAccount(s, step);
    } else if ReaderEnabled(s, step) {
      ReaderKeepsAccount(s, step);
    } else {
      ServerKeepsAccount(s, step);
    }
  }

  lemma ServerKeepsAccount(s: State, step: Step)
    requires AccountInv(s) && ServerEnabled(s, step)
    ensures AccountInv(DoServer(s, step))
  {
    hide Reply.AsBytes;
  }

  lemma {:induction false} RunKeepsBook(s: State, steps: seq<Step>)
    requires Inv(s) && BookInv(s) && Run(s, steps).Some?
    ensures BookInv(Run(s, steps).value)
    decreases |steps|
  {
    hide Inv, BookInv;
    if steps != [] {
      StepKeeps(s, steps[0]);
      StepKeepsBook(s, steps[0]);
      RunKeepsBook(Do(s, steps[0]), steps[1..]);
    }
  }
}
