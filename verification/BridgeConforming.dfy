/** Runs in which every submission announces its length truthfully and the server follows the protocol:
    it answers only commands it can decode from the bytes it has been sent, and settles each once. */
module BridgeConforming {
  import opened Bytes
  import opened Protocol
  import opened Wire
  import opened Commands
  import opened Responses
  import opened BridgeSystem
  import opened BridgeSafety
  import opened BridgeWire

  // --- The server's side of the protocol ---

  ghost predicate Answerable(view: seq<Command>, q: u32) {
    exists c | c in view :: c.seqnum == q && c.call.SubmitCall?
  }

  /** No reply so far settles `q`. */
  ghost predicate Open(served: seq<Served>, n: nat, q: u32)
    requires n <= |served|
  {
    forall i | 0 <= i < n :: served[i].settles != Some(q)
  }

  /** No reply so far answers the unlink command `u`. */
  ghost predicate Unanswered(served: seq<Served>, n: nat, u: u32)
    requires n <= |served|
  {
    forall i | 0 <= i < n :: served[i].reply.UnlinkReply? ==> served[i].reply.unlink.seqnum != u
  }

  /** RET_SUBMIT answers a decoded, unsettled CMD_SUBMIT and frames its data by that command's direction;
      RET_UNLINK answers a decoded CMD_UNLINK once, with -ECONNRESET exactly when it settles its target. */
  ghost predicate MayReply(view: seq<Command>, served: seq<Served>, r: Reply, settles: Option<u32>) {
    && r.Valid()
    && (settles.Some? ==> Answerable(view, settles.value) && Open(served, |served|, settles.value))
    && match r
       case SubmitReply(h, data) =>
         && settles == Some(h.seqnum)
         && (forall c | c in view && c.seqnum == h.seqnum && c.call.SubmitCall? ::
               |data| == if c.call.direction.In? then h.actualLength else 0)
       case UnlinkReply(h) =>
         && Unanswered(served, |served|, h.seqnum)
         && (exists c | c in view :: c.seqnum == h.seqnum && c.call.UnlinkCall? &&
               settles == if h.status == -ECONNRESET then Some(c.call.target) else None)
  }

  ghost predicate Conforms(s: State, step: Step) {
    match step
    case ServerBytes(_) => false
    case ServerReply(r, settles) => MayReply(DecodeCommands(s.sent).commands, s.served, r, settles)
    case Begin(_, call) => call.Framed()
    case _ => true
  }

  ghost predicate ConformingRun(s: State, steps: seq<Step>)
    decreases |steps|
  {
    steps == [] ||
    (Enabled(s, steps[0]) && Conforms(s, steps[0]) && ConformingRun(Do(s, steps[0]), steps[1..]))
  }

  // --- The invariant ---

  ghost predicate FramedInv(calls: Calls) {
    forall ch | 0 <= ch < |calls| :: calls[ch].call.Framed()
  }

  ghost predicate Posted(calls: Calls, issued: map<u32, Chan>, q: u32) {
    q in issued && IssuedTo(calls, q, issued[q]) && calls[issued[q]].pc.Complete()
  }

  ghost predicate ServedOk(calls: Calls, issued: map<u32, Chan>, v: Served) {
    && v.reply.Valid()
    && (v.settles.Some? ==>
          Posted(calls, issued, v.settles.value) && calls[issued[v.settles.value]].call.SubmitCall?)
    && match v.reply
       case SubmitReply(h, data) =>
         && v.settles == Some(h.seqnum)
         && |data| == if calls[issued[h.seqnum]].call.direction.In? then h.actualLength else 0
       case UnlinkReply(h) =>
         && Posted(calls, issued, h.seqnum) && calls[issued[h.seqnum]].call.UnlinkCall?
         && v.settles == if h.status == -ECONNRESET then Some(calls[issued[h.seqnum]].call.target) else None
  }

  /** Everything served answers a whole command, and nothing is settled or answered twice. */
  ghost predicate ServedInv(calls: Calls, issued: map<u32, Chan>, served: seq<Served>) {
    && (forall i | 0 <= i < |served| :: ServedOk(calls, issued, served[i]))
    && (forall i, j | 0 <= i < j < |served| && served[j].settles.Some? :: served[i].settles != served[j].settles)
    && (forall i, j | 0 <= i < j < |served| && served[i].reply.UnlinkReply? && served[j].reply.UnlinkReply? ::
          served[i].reply.unlink.seqnum != served[j].reply.unlink.seqnum)
  }

  function Replies(served: seq<Served>): (rs: seq<Reply>)
    ensures |rs| == |served|
    ensures forall i | 0 <= i < |served| :: rs[i] == served[i].reply
  {
    seq(|served|, i requires 0 <= i < |served| => served[i].reply)
  }

  /** The unread bytes are what is left of the reply being read, then the replies not yet begun. */
  ghost predicate IncomingInv(reader: Reader, inp: seq<byte>, served: seq<Served>, taken: nat) {
    && taken <= |served|
    && (reader.AtLookup? || reader.AtPayload? ==>
          && 0 < taken && served[taken - 1].reply.SubmitReply? && served[taken - 1].reply.submit == reader.submit
          && inp == served[taken - 1].reply.data + RepliesBytes(Replies(served[taken..])))
    && (reader.AtUnlink? ==> 0 < taken && served[taken - 1].reply == UnlinkReply(reader.unlink))
    && (reader.AtHeader? || reader.AtDeliver? || reader.AtSend? || reader.AtUnlink? ==>
          inp == RepliesBytes(Replies(served[taken..])))
    && (reader.AtPayload? ==> |served[taken - 1].reply.data| == reader.submit.actualLength)
  }

  /** How many replies have had their effect on the maps. */
  function Resolved(reader: Reader, taken: nat): nat {
    if (reader.AtLookup? || reader.AtUnlink?) && taken > 0 then taken - 1 else taken
  }

  ghost predicate AliveSubmit(calls: Calls, issued: map<u32, Chan>, q: u32) {
    Registered(calls, issued, q) && !calls[issued[q]].pc.RolledBack() && calls[issued[q]].call.SubmitCall?
  }

  ghost predicate AliveUnlink(calls: Calls, issued: map<u32, Chan>, u: u32) {
    Registered(calls, issued, u) && !calls[issued[u]].pc.RolledBack() && calls[issued[u]].call.UnlinkCall?
  }

  /** The maps are exactly the outstanding commands: registered, not rolled back, not settled by any of
      the first `n` replies. */
  ghost predicate ExactInv(calls: Calls, issued: map<u32, Chan>, sh: Shared, served: seq<Served>, n: nat) {
    && n <= |served|
    && (forall q :: q in sh.pending <==> AliveSubmit(calls, issued, q) && Open(served, n, q))
    && (forall u :: u in sh.unlinks <==> AliveUnlink(calls, issued, u) && Unanswered(served, n, u))
  }

  ghost predicate ProtocolInv(s: State) {
    && FramedInv(s.calls) && ServedInv(s.calls, s.issued, s.served)
    && IncomingInv(s.reader, s.Incoming(), s.served, s.taken)
    && ExactInv(s.calls, s.issued, s.shared, s.served, Resolved(s.reader, s.taken))
  }

  // --- What the server sees ---

  /** The commands wholly on the wire announce their lengths truthfully. */
  ghost predicate LogFramed(log: seq<Entry>) {
    forall i | 0 <= i < |log| :: log[i].command.call.Framed()
  }

  /** So does the command that is partly on the wire, if there is one. */
  ghost predicate TailFramed(s: State) {
    && (s.broken.Some? ==> s.broken.value.count == 0 || s.broken.value.command.call.Framed())
    && (forall ch | 0 <= ch < |s.calls| && s.calls[ch].pc.Writing? ::
          s.calls[ch].pc.done == 0 || s.calls[ch].call.Framed())
  }

  lemma CallsFrameWire(s: State)
    requires WireInv(s) && FramedInv(s.calls)
    ensures LogFramed(s.log) && TailFramed(s)
  {
    hide Command.AsBytes, AllBytes, Tail, Call.Framed;
    forall i | 0 <= i < |s.log|
      ensures s.log[i].command.call.Framed()
    {
      assert EntryOk(s.calls, s.issued, s.devid, s.log[i]);
    }
  }

  lemma TailIsIncomplete(s: State)
    requires Inv(s) && WireInv(s) && TailFramed(s)
    ensures DecodeCommand(Tail(s.calls, s.writer, s.devid, s.broken)) == Incomplete
  {
    hide IssuedInv, PendingInv, AnswersInv, CarriedInv, SenderInv, MailInv, ReturnedInv, WaitingInv, SendsInv,
         Command.AsBytes, DecodeCommand, AllBytes, LogInv, Call.Framed;
    NothingIsIncomplete();
    if s.broken.Some? {
      if s.broken.value.count > 0 {
        CutCommandIsIncomplete(s.broken.value.command, s.broken.value.count);
      }
    } else if s.writer.Some? && s.calls[s.writer.value].pc.Writing? && s.calls[s.writer.value].pc.done > 0 {
      CutCommandIsIncomplete(s.CommandOf(s.writer.value), s.calls[s.writer.value].pc.done);
    }
  }

  lemma NothingIsIncomplete()
    ensures DecodeCommand([]) == Incomplete
  {}

  /** The server decodes exactly the commands that were posted, in order. */
  lemma ServerView(s: State)
    requires Inv(s) && WireInv(s) && LogFramed(s.log) && TailFramed(s)
    ensures DecodeCommands(s.sent) == Decoded(AllOnWire(Logged(s.log)), Tail(s.calls, s.writer, s.devid, s.broken))
  {
    TailIsIncomplete(s);
    hide Inv, Tail, DecodeCommand, AllBytes, CutInv, Command.AsBytes, DecodeCommands, Call.Framed;
    var cs := Logged(s.log);
    forall c | c in cs
      ensures c.call.Framed()
    {
      var i :| 0 <= i < |cs| && cs[i] == c;
    }
    CommandStreamRoundTrip(cs, Tail(s.calls, s.writer, s.devid, s.broken));
  }

  /** A command in the server's view is a posted call's. */
  lemma SeenIsPosted(s: State, c: Command)
    requires Inv(s) && WireInv(s) && FramedInv(s.calls) && c in DecodeCommands(s.sent).commands
    ensures Posted(s.calls, s.issued, c.seqnum)
    ensures c == Command(c.seqnum, s.devid, s.calls[s.issued[c.seqnum]].call).OnWire()
  {
    CallsFrameWire(s);
    ServerView(s);
    hide Inv, SentInv, DecodeCommands, LogFramed, TailFramed;
    var i :| 0 <= i < |s.log| && AllOnWire(Logged(s.log))[i] == c;
    assert EntryOk(s.calls, s.issued, s.devid, s.log[i]);
  }

  // --- Replies stay as they are ---

  ghost predicate PostedGrows(calls: Calls, issued: map<u32, Chan>, calls': Calls, issued': map<u32, Chan>) {
    forall q | Posted(calls, issued, q) ::
      Posted(calls', issued', q) && calls'[issued'[q]].call == calls[issued[q]].call
  }

  lemma ServedKept(calls: Calls, issued: map<u32, Chan>, served: seq<Served>, calls': Calls, issued': map<u32, Chan>)
    requires ServedInv(calls, issued, served) && PostedGrows(calls, issued, calls', issued')
    ensures ServedInv(calls', issued', served)
  {
    forall i | 0 <= i < |served|
      ensures ServedOk(calls', issued', served[i])
    {
      assert ServedOk(calls, issued, served[i]);
    }
  }

  lemma PostedMove(calls: Calls, issued: map<u32, Chan>, ch: Chan, pc: Pc)
    requires ch < |calls| && (calls[ch].pc.Complete() ==> pc.Complete() && pc.seqnum == calls[ch].pc.seqnum)
    ensures PostedGrows(calls, issued, Move(calls, ch, pc), issued)
  {}

  lemma ThreadKeepsPosted(s: State, step: Step)
    requires Inv(s) && ThreadEnabled(s, step)
    ensures var u := DoThread(s, step); PostedGrows(s.calls, s.issued, u.calls, u.issued)
  {
    hide WriterInv, IssuedInv, PendingInv, AnswersInv, CarriedInv, SenderInv, MailInv, ReturnedInv, WaitingInv,
         SendsInv, Command.AsBytes, PostedGrows;
    var u := DoThread(s, step);
    match step
    case Spawn(_, _) => SamePosted(s.calls, s.issued, u.calls);
    case Begin(_, _) => SamePosted(s.calls, s.issued, u.calls);
    case Resume(_, _) => SamePosted(s.calls, s.issued, u.calls);
    case Number(ch) => NumberKeepsPosted(s, ch);
    case TakeMail(ch) => TakeMailKeepsPosted(s, ch);
    case LockWriter(ch) => PostedMove(s.calls, s.issued, ch, u.calls[ch].pc);
    case RegisterCall(ch) => PostedMove(s.calls, s.issued, ch, u.calls[ch].pc);
    case WriteSome(ch, _) => PostedMove(s.calls, s.issued, ch, u.calls[ch].pc);
    case WriteFails(ch) => PostedMove(s.calls, s.issued, ch, u.calls[ch].pc);
    case RollBack(ch) => PostedMove(s.calls, s.issued, ch, u.calls[ch].pc);
    case Insert(ch) => PostedMove(s.calls, s.issued, ch, u.calls[ch].pc);
  }

  lemma SamePosted(calls: Calls, issued: map<u32, Chan>, calls': Calls)
    requires |calls| <= |calls'| && (forall ch | 0 <= ch < |calls| :: calls'[ch] == calls[ch])
    ensures PostedGrows(calls, issued, calls', issued)
  {}

  lemma NumberKeepsPosted(s: State, ch: Chan)
    requires Inv(s) && ThreadEnabled(s, Number(ch))
    ensures PostedGrows(s.calls, s.issued, Move(s.calls, ch, Numbered(s.next)), s.issued[s.next := ch])
  {
    hide PendingInv, AnswersInv, CarriedInv, SenderInv, MailInv, ReturnedInv, WaitingInv, SendsInv;
    NumberedNext(s.calls, s.issued, s.next, ch);
  }

  lemma TakeMailKeepsPosted(s: State, ch: Chan)
    requires MailInv(s.calls, s.mail, s.answers, s.reader.Drains())
    requires ch < |s.calls| && s.Pc(ch).Waiting? && ch in s.mail
    ensures PostedGrows(s.calls, s.issued, Move(s.calls, ch, Returned(s.Pc(ch).seqnum, s.mail[ch])), s.issued)
  {
    hide PostedGrows;
    assert GoodResult(s.Pc(ch).seqnum, s.mail[ch], s.answers, s.reader.Drains());
    PostedMove(s.calls, s.issued, ch, Returned(s.Pc(ch).seqnum, s.mail[ch]));
  }

  lemma StepKeepsFramed(s: State, step: Step)
    requires FramedInv(s.calls) && Enabled(s, step) && Conforms(s, step)
    ensures FramedInv(Do(s, step).calls)
  {
    hide FramedInv, Call.Framed, DoThread, DoReader, ThreadEnabled, ReaderEnabled, Reply.AsBytes, MayReply;
    if ThreadEnabled(s, step) {
      ThreadKeepsFramed(s, step);
    } else {
      OthersLeaveWire(s, step);
    }
  }

  lemma ThreadKeepsFramed(s: State, step: Step)
    requires FramedInv(s.calls) && ThreadEnabled(s, step) && Conforms(s, step)
    ensures FramedInv(DoThread(s, step).calls)
  {
    hide Command.AsBytes, Call.Framed;
  }

  /** A conforming reply fits in with the earlier ones. */
  lemma ReplyKeepsServed(s: State, r: Reply, settles: Option<u32>)
    requires Inv(s) && WireInv(s) && FramedInv(s.calls) && ServedInv(s.calls, s.issued, s.served)
    requires Conforms(s, ServerReply(r, settles))
    ensures ServedInv(s.calls, s.issued, s.served + [Served(r, settles)])
  {
    hide Inv, WireInv, FramedInv, DecodeCommands, ServedOk, ServedInv, Reply.Valid, Answerable;
    NewReplyOk(s, r, settles);
    ServedAppend(s.calls, s.issued, s.served, Served(r, settles));
  }

  lemma ServedAppend(calls: Calls, issued: map<u32, Chan>, served: seq<Served>, v: Served)
    requires ServedInv(calls, issued, served) && ServedOk(calls, issued, v)
    requires v.settles.Some? ==> Open(served, |served|, v.settles.value)
    requires v.reply.UnlinkReply? ==> Unanswered(served, |served|, v.reply.unlink.seqnum)
    ensures ServedInv(calls, issued, served + [v])
  {
    hide ServedOk;
  }

  lemma NewReplyOk(s: State, r: Reply, settles: Option<u32>)
    requires Inv(s) && WireInv(s) && FramedInv(s.calls)
    requires Conforms(s, ServerReply(r, settles))
    ensures ServedOk(s.calls, s.issued, Served(r, settles))
  {
    hide Inv, WireInv, DecodeCommands, FramedInv;
    var view := DecodeCommands(s.sent).commands;
    if settles.Some? {
      var c :| c in view && c.seqnum == settles.value && c.call.SubmitCall?;
      SeenIsPosted(s, c);
    }
    if r.UnlinkReply? {
      var c :| c in view && c.seqnum == r.unlink.seqnum && c.call.UnlinkCall? &&
               settles == if r.unlink.status == -ECONNRESET then Some(c.call.target) else None;
      SeenIsPosted(s, c);
    }
  }

  // --- The incoming stream ---

  lemma RepliesStep(served: seq<Served>, taken: nat)
    requires taken < |served|
    ensures RepliesBytes(Replies(served[taken..]))
         == served[taken].reply.AsBytes() + RepliesBytes(Replies(served[taken + 1..]))
  {
    var rs := Replies(served[taken..]);
    assert rs[0] == served[taken].reply;
    assert rs[1..] == Replies(served[taken + 1..]);
  }

  lemma RepliesAppend(served: seq<Served>, v: Served, taken: nat)
    requires taken <= |served|
    ensures RepliesBytes(Replies((served + [v])[taken..])) == RepliesBytes(Replies(served[taken..])) + v.reply.AsBytes()
  {
    hide Reply.AsBytes;
    RepliesBytesAppend(Replies(served[taken..]), v.reply);
    assert Replies((served + [v])[taken..]) == Replies(served[taken..]) + [v.reply];
  }

  lemma SomeReplyIsLeft(served: seq<Served>, taken: nat)
    requires taken <= |served|
    ensures RepliesBytes(Replies(served[taken..])) == [] || taken < |served|
  {
    if taken == |served| {
      assert served[taken..] == [];
    }
  }

  lemma HeaderHasArrived(bs: seq<byte>, more: seq<byte>)
    requires |bs| >= HEADER_LEN
    ensures AfterHeader(bs + more) == AfterHeader(bs) && (bs + more)[HEADER_LEN..] == bs[HEADER_LEN..] + more
  {
    assert (bs + more)[40..48] == bs[40..48] && (bs + more)[24..48] == bs[24..48];
  }

  /** Where the header of a reply takes the reader. */
  function HeaderPlace(r: Reply): Reader {
    match r
    case SubmitReply(h, _) => AtLookup(h)
    case UnlinkReply(h) => AtUnlink(h)
  }

  lemma ReadHeaderKeepsIncoming(s: State)
    requires ServedInv(s.calls, s.issued, s.served) && IncomingInv(s.reader, s.Incoming(), s.served, s.taken)
    requires ReaderEnabled(s, ReadHeader)
    ensures s.taken < |s.served|
    ensures AfterHeader(s.inp) == HeaderPlace(s.served[s.taken].reply)
    ensures IncomingInv(AfterHeader(s.inp), s.inp[HEADER_LEN..] + s.wire, s.served, s.taken + 1)
  {
    assert s.inp + s.wire == RepliesBytes(Replies(s.served[s.taken..]));
    hide ServedInv, IncomingInv, RepliesBytes, AfterHeader, Reply.AsBytes;
    HeaderHasArrived(s.inp, s.wire);
    NextIsServed(s.calls, s.issued, s.served, s.taken, s.inp + s.wire);
    HeaderTaken(s.served, s.taken);
  }

  /** Bytes that have arrived belong to a reply. */
  lemma NextIsServed(calls: Calls, issued: map<u32, Chan>, served: seq<Served>, taken: nat, bs: seq<byte>)
    requires ServedInv(calls, issued, served) && taken <= |served|
    requires bs == RepliesBytes(Replies(served[taken..])) && |bs| > 0
    ensures taken < |served| && served[taken].reply.Valid()
  {
    SomeReplyIsLeft(served, taken);
    hide RepliesBytes, ServedOk;
    assert ServedOk(calls, issued, served[taken]);
    ServedIsValid(calls, issued, served[taken]);
  }

  /** Reading a header leaves the data it announces and the replies after it. */
  lemma HeaderTaken(served: seq<Served>, taken: nat)
    requires taken < |served| && served[taken].reply.Valid()
    ensures var bs := RepliesBytes(Replies(served[taken..]));
            && |bs| >= HEADER_LEN && AfterHeader(bs) == HeaderPlace(served[taken].reply)
            && IncomingInv(AfterHeader(bs), bs[HEADER_LEN..], served, taken + 1)
  {
    RepliesStep(served, taken);
    HeaderOf(served[taken].reply, RepliesBytes(Replies(served[taken + 1..])));
    hide RepliesBytes, AfterHeader, Reply.AsBytes;
  }

  lemma ServedIsValid(calls: Calls, issued: map<u32, Chan>, v: Served)
    requires ServedOk(calls, issued, v)
    ensures v.reply.Valid()
  {}

  lemma HeaderOf(r: Reply, rest: seq<byte>)
    requires r.Valid()
    ensures |r.AsBytes()| >= HEADER_LEN
    ensures AfterHeader(r.AsBytes() + rest) == HeaderPlace(r)
    ensures (r.AsBytes() + rest)[HEADER_LEN..] == (if r.SubmitReply? then r.data + rest else rest)
  {
    hide RetSubmitFrom, RetUnlinkFrom, U32At, Reply.AsBytes;
    ReplyHeaderReadsBack(r, rest);
    assert [] + rest == rest;
  }

  lemma ReplyKeepsIncoming(reader: Reader, inp: seq<byte>, served: seq<Served>, taken: nat, v: Served)
    requires IncomingInv(reader, inp, served, taken)
    ensures IncomingInv(reader, inp + v.reply.AsBytes(), served + [v], taken)
  {
    hide Reply.AsBytes, RepliesBytes;
    RepliesAppend(served, v, taken);
    if reader.AtLookup? || reader.AtPayload? {
      Associative(served[taken - 1].reply.data, RepliesBytes(Replies(served[taken..])), v.reply.AsBytes());
    }
  }

  /** Where the reader is while it carries one submission's reply. */
  lemma PayloadKeepsIncoming(s: State)
    requires IncomingInv(s.reader, s.Incoming(), s.served, s.taken) && ReaderEnabled(s, ReadPayload)
    ensures var u := DoReader(s, ReadPayload);
            && IncomingInv(u.reader, u.Incoming(), u.served, u.taken)
            && u.reader.ret.data == s.served[s.taken - 1].reply.data
  {
    hide RepliesBytes;
    var data, rest := s.served[s.taken - 1].reply.data, RepliesBytes(Replies(s.served[s.taken..]));
    assert s.inp + s.wire == data + rest;
    assert (s.inp + s.wire)[..|data|] == s.inp[..|data|] == data;
    assert (s.inp + s.wire)[|data|..] == s.inp[|data|..] + s.wire == rest;
  }

  // --- The maps ---

  ghost predicate SameAlive(calls: Calls, issued: map<u32, Chan>, calls': Calls, issued': map<u32, Chan>) {
    && (forall q :: AliveSubmit(calls', issued', q) <==> AliveSubmit(calls, issued, q))
    && (forall u :: AliveUnlink(calls', issued', u) <==> AliveUnlink(calls, issued, u))
  }

  lemma ExactKept(calls: Calls, issued: map<u32, Chan>, sh: Shared, served: seq<Served>, n: nat,
                  calls': Calls, issued': map<u32, Chan>)
    requires ExactInv(calls, issued, sh, served, n) && SameAlive(calls, issued, calls', issued')
    ensures ExactInv(calls', issued', sh, served, n)
  {}

  lemma AliveMove(calls: Calls, issued: map<u32, Chan>, ch: Chan, pc: Pc)
    requires ch < |calls| && !calls[ch].pc.Numbered? && !calls[ch].pc.RolledBack() && !pc.Numbered? && !pc.RolledBack()
    requires calls[ch].pc.HasSeqnum() == pc.HasSeqnum() && (pc.HasSeqnum() ==> pc.seqnum == calls[ch].pc.seqnum)
    ensures SameAlive(calls, issued, Move(calls, ch, pc), issued)
  {}

  lemma AliveAppend(calls: Calls, issued: map<u32, Chan>, next: u32, c: CallState)
    requires IssuedInv(calls, issued, next)
    ensures SameAlive(calls, issued, calls + [c], issued)
  {}

  lemma AliveNumber(calls: Calls, issued: map<u32, Chan>, next: u32, ch: Chan)
    requires IssuedInv(calls, issued, next) && ch < |calls| && calls[ch].pc.Locked?
    ensures SameAlive(calls, issued, Move(calls, ch, Numbered(next)), issued[next := ch])
  {}

  lemma RegisterExact(calls: Calls, issued: map<u32, Chan>, next: u32, sh: Shared, served: seq<Served>, n: nat,
                      ch: Chan)
    requires IssuedInv(calls, issued, next) && ServedInv(calls, issued, served)
    requires ExactInv(calls, issued, sh, served, n) && ch < |calls| && calls[ch].pc.Numbered?
    ensures var q := calls[ch].pc.seqnum;
            ExactInv(Move(calls, ch, Writing(q, 0)), issued, Register(sh, q, calls[ch].call), served, n)
  {
    var q := calls[ch].pc.seqnum;
    var calls', sh' := Move(calls, ch, Writing(q, 0)), Register(sh, q, calls[ch].call);
    assert issued[q] == ch && !Posted(calls, issued, q);
    forall i | 0 <= i < n
      ensures served[i].settles != Some(q)
      ensures served[i].reply.UnlinkReply? ==> served[i].reply.unlink.seqnum != q
    {
      assert ServedOk(calls, issued, served[i]);
    }
    forall p
      ensures p in sh'.pending <==> AliveSubmit(calls', issued, p) && Open(served, n, p)
      ensures p in sh'.unlinks <==> AliveUnlink(calls', issued, p) && Unanswered(served, n, p)
    {
      if p != q {
        assert AliveSubmit(calls', issued, p) <==> AliveSubmit(calls, issued, p);
        assert AliveUnlink(calls', issued, p) <==> AliveUnlink(calls, issued, p);
      }
    }
  }

  lemma RollBackExact(calls: Calls, issued: map<u32, Chan>, next: u32, sh: Shared, served: seq<Served>, n: nat,
                      ch: Chan)
    requires IssuedInv(calls, issued, next)
    requires ExactInv(calls, issued, sh, served, n) && ch < |calls| && calls[ch].pc.Failed?
    ensures var q := calls[ch].pc.seqnum;
            ExactInv(Move(calls, ch, Returned(q, WriteError)), issued, Unregister(sh, q, calls[ch].call), served, n)
  {
    var q := calls[ch].pc.seqnum;
    var calls', sh' := Move(calls, ch, Returned(q, WriteError)), Unregister(sh, q, calls[ch].call);
    assert issued[q] == ch;
    forall p
      ensures p in sh'.pending <==> AliveSubmit(calls', issued, p) && Open(served, n, p)
      ensures p in sh'.unlinks <==> AliveUnlink(calls', issued, p) && Unanswered(served, n, p)
    {
      if p != q {
        assert AliveSubmit(calls', issued, p) <==> AliveSubmit(calls, issued, p);
        assert AliveUnlink(calls', issued, p) <==> AliveUnlink(calls, issued, p);
      }
    }
  }

  /** Steps that only move a program counter on, between registration and return or before it. */
  predicate IsPlain(step: Step) {
    step.LockWriter? || step.WriteSome? || step.WriteFails? || step.Insert?
  }

  lemma PlainMove(s: State, step: Step)
    requires ThreadEnabled(s, step) && IsPlain(step)
    ensures var u, ch := DoThread(s, step), step.ch;
            && ch < |s.calls| && |u.calls| == |s.calls| && u.calls == Move(s.calls, ch, u.calls[ch].pc)
            && u.issued == s.issued && u.shared == s.shared
            && !s.calls[ch].pc.Numbered? && !s.calls[ch].pc.RolledBack()
            && !u.calls[ch].pc.Numbered? && !u.calls[ch].pc.RolledBack()
            && s.calls[ch].pc.HasSeqnum() == u.calls[ch].pc.HasSeqnum()
            && (u.calls[ch].pc.HasSeqnum() ==> u.calls[ch].pc.seqnum == s.calls[ch].pc.seqnum)
  {
    hide Command.AsBytes;
  }

  lemma ThreadKeepsExact(s: State, step: Step)
    requires Inv(s) && ServedInv(s.calls, s.issued, s.served) && ThreadEnabled(s, step)
    requires ExactInv(s.calls, s.issued, s.shared, s.served, Resolved(s.reader, s.taken))
    ensures var u := DoThread(s, step); ExactInv(u.calls, u.issued, u.shared, u.served, Resolved(u.reader, u.taken))
  {
    ThreadLeavesReader(s, step);
    hide Inv, ServedInv, ExactInv, DoThread, ThreadEnabled;
    if IsPlain(step) {
      PlainMove(s, step);
      MoveExact(s, step.ch, DoThread(s, step).calls[step.ch].pc);
    } else {
      OtherKeepsExact(s, step);
    }
  }

  lemma OtherKeepsExact(s: State, step: Step)
    requires Inv(s) && ServedInv(s.calls, s.issued, s.served) && ThreadEnabled(s, step) && !IsPlain(step)
    requires ExactInv(s.calls, s.issued, s.shared, s.served, Resolved(s.reader, s.taken))
    ensures var u := DoThread(s, step); ExactInv(u.calls, u.issued, u.shared, s.served, Resolved(s.reader, s.taken))
  {
    hide PendingInv, AnswersInv, CarriedInv, SenderInv, MailInv, ReturnedInv, WaitingInv, SendsInv, IssuedInv,
         WriterInv, ServedInv, ExactInv, SameAlive, Register, Unregister, Command.AsBytes;
    var u := DoThread(s, step);
    var n := Resolved(s.reader, s.taken);
    match step
    case Spawn(_, _) =>
    case Resume(_, _) =>
    case Begin(t, call) =>
      AliveAppend(s.calls, s.issued, s.next, CallState(t, call, Calling));
      ExactKept(s.calls, s.issued, s.shared, s.served, n, u.calls, u.issued);
    case Number(ch) =>
      AliveNumber(s.calls, s.issued, s.next, ch);
      ExactKept(s.calls, s.issued, s.shared, s.served, n, u.calls, u.issued);
    case RegisterCall(ch) => RegisterExact(s.calls, s.issued, s.next, s.shared, s.served, n, ch);
    case RollBack(ch) => RollBackExact(s.calls, s.issued, s.next, s.shared, s.served, n, ch);
    case TakeMail(ch) => TakeMailExact(s, ch);
  }

  lemma MoveExact(s: State, ch: Chan, pc: Pc)
    requires ExactInv(s.calls, s.issued, s.shared, s.served, Resolved(s.reader, s.taken)) && ch < |s.calls|
    requires !s.calls[ch].pc.Numbered? && !s.calls[ch].pc.RolledBack() && !pc.Numbered? && !pc.RolledBack()
    requires s.calls[ch].pc.HasSeqnum() == pc.HasSeqnum() && (pc.HasSeqnum() ==> pc.seqnum == s.calls[ch].pc.seqnum)
    ensures ExactInv(Move(s.calls, ch, pc), s.issued, s.shared, s.served, Resolved(s.reader, s.taken))
  {
    hide ExactInv, SameAlive;
    AliveMove(s.calls, s.issued, ch, pc);
    ExactKept(s.calls, s.issued, s.shared, s.served, Resolved(s.reader, s.taken), Move(s.calls, ch, pc), s.issued);
  }

  lemma TakeMailExact(s: State, ch: Chan)
    requires MailInv(s.calls, s.mail, s.answers, s.reader.Drains())
    requires ch < |s.calls| && s.Pc(ch).Waiting? && ch in s.mail
    requires ExactInv(s.calls, s.issued, s.shared, s.served, Resolved(s.reader, s.taken))
    ensures ExactInv(Move(s.calls, ch, Returned(s.Pc(ch).seqnum, s.mail[ch])), s.issued, s.shared, s.served,
                     Resolved(s.reader, s.taken))
  {
    hide ExactInv;
    assert GoodResult(s.Pc(ch).seqnum, s.mail[ch], s.answers, s.reader.Drains());
    MoveExact(s, ch, Returned(s.Pc(ch).seqnum, s.mail[ch]));
  }

  /** The reply being looked up answers a submission that is remembered. */
  lemma LookupFinds(s: State)
    requires ServedInv(s.calls, s.issued, s.served) && IncomingInv(s.reader, s.Incoming(), s.served, s.taken)
    requires ExactInv(s.calls, s.issued, s.shared, s.served, Resolved(s.reader, s.taken)) && s.reader.AtLookup?
    ensures s.reader.submit.seqnum in s.shared.pending
    ensures s.served[s.taken - 1].settles == Some(s.reader.submit.seqnum)
  {
    var v := s.served[s.taken - 1];
    assert ServedOk(s.calls, s.issued, v);
    assert AliveSubmit(s.calls, s.issued, s.reader.submit.seqnum);
  }

  /** Its data is as long as the remembered direction makes the reader expect. */
  lemma LookupFrames(s: State)
    requires ServedInv(s.calls, s.issued, s.served) && IncomingInv(s.reader, s.Incoming(), s.served, s.taken)
    requires PendingInv(s.calls, s.issued, s.shared, s.answers, s.reader.Drains())
    requires s.reader.AtLookup? && s.reader.submit.seqnum in s.shared.pending
    ensures |s.served[s.taken - 1].reply.data|
            == if s.shared.pending[s.reader.submit.seqnum].In? then s.reader.submit.actualLength else 0
  {
    hide RepliesBytes;
    var q := s.reader.submit.seqnum;
    assert ServedOk(s.calls, s.issued, s.served[s.taken - 1]);
    assert PendingOk(s.calls, s.issued, q, s.shared.pending[q], s.answers, s.reader.Drains());
  }

  lemma UnlinkFinds(s: State)
    requires ServedInv(s.calls, s.issued, s.served) && IncomingInv(s.reader, s.Incoming(), s.served, s.taken)
    requires ExactInv(s.calls, s.issued, s.shared, s.served, Resolved(s.reader, s.taken)) && s.reader.AtUnlink?
    ensures s.reader.unlink.seqnum in s.shared.unlinks
  {
    var v := s.served[s.taken - 1];
    assert ServedOk(s.calls, s.issued, v);
    assert AliveUnlink(s.calls, s.issued, s.reader.unlink.seqnum);
  }

  lemma LookupExact(s: State)
    requires ServedInv(s.calls, s.issued, s.served) && IncomingInv(s.reader, s.Incoming(), s.served, s.taken)
    requires ExactInv(s.calls, s.issued, s.shared, s.served, Resolved(s.reader, s.taken)) && s.reader.AtLookup?
    ensures var sh := s.shared.(pending := s.shared.pending - {s.reader.submit.seqnum});
            ExactInv(s.calls, s.issued, sh, s.served, s.taken)
  {
    hide ServedInv;
    LookupFinds(s);
    OneMoreSubmit(s.served, s.taken, s.reader.submit.seqnum);
  }

  /** Replies up to the `n`-th: the last of them settles `q` and answers no unlink. */
  lemma OneMoreSubmit(served: seq<Served>, n: nat, q: u32)
    requires 0 < n <= |served| && served[n - 1].settles == Some(q) && served[n - 1].reply.SubmitReply?
    ensures forall p: u32 :: Open(served, n, p) <==> Open(served, n - 1, p) && p != q
    ensures forall u: u32 :: Unanswered(served, n, u) <==> Unanswered(served, n - 1, u)
  {}

  lemma OneMoreUnlink(served: seq<Served>, n: nat)
    requires 0 < n <= |served| && served[n - 1].reply.UnlinkReply?
    ensures forall p: u32 :: Open(served, n, p) <==> Open(served, n - 1, p) && served[n - 1].settles != Some(p)
    ensures forall u: u32 ::
              Unanswered(served, n, u) <==> Unanswered(served, n - 1, u) && u != served[n - 1].reply.unlink.seqnum
  {}

  lemma SettleExact(s: State)
    requires ServedInv(s.calls, s.issued, s.served) && IncomingInv(s.reader, s.Incoming(), s.served, s.taken)
    requires ExactInv(s.calls, s.issued, s.shared, s.served, Resolved(s.reader, s.taken)) && s.reader.AtUnlink?
    requires PendingInv(s.calls, s.issued, s.shared, s.answers, s.reader.Drains())
    ensures var sh := SettleUnlink(s.shared, s.reader.unlink.seqnum, s.reader.unlink.status);
            ExactInv(s.calls, s.issued, sh, s.served, s.taken)
  {
    var h := s.reader.unlink;
    UnlinkFinds(s);
    assert ServedOk(s.calls, s.issued, s.served[s.taken - 1]);
    assert IsUnlink(s.calls, s.issued, h.seqnum, s.shared.unlinks[h.seqnum]);
    hide ServedInv, PendingInv;
    OneMoreUnlink(s.served, s.taken);
  }

  // --- Every step ---

  lemma LookupKeepsIncoming(s: State)
    requires ServedInv(s.calls, s.issued, s.served) && IncomingInv(s.reader, s.Incoming(), s.served, s.taken)
    requires ExactInv(s.calls, s.issued, s.shared, s.served, Resolved(s.reader, s.taken)) && s.reader.AtLookup?
    requires PendingInv(s.calls, s.issued, s.shared, s.answers, s.reader.Drains())
    ensures var u := DoReader(s, LookupPending);
            u.reader.Live() && IncomingInv(u.reader, u.Incoming(), u.served, u.taken)
  {
    LookupFinds(s);
    LookupFrames(s);
    hide ServedInv, PendingInv, ExactInv, IncomingInv, AfterLookup, Answered;
    IncomingAfterLookup(s.reader.submit, s.shared.pending[s.reader.submit.seqnum], s.Incoming(), s.served, s.taken);
  }

  lemma IncomingAfterLookup(h: RetSubmitHeader, direction: Direction, inp: seq<byte>, served: seq<Served>, taken: nat)
    requires IncomingInv(AtLookup(h), inp, served, taken)
    requires |served[taken - 1].reply.data| == if direction.In? then h.actualLength else 0
    ensures var reader := AfterLookup(h, Some(direction)); reader.Live() && IncomingInv(reader, inp, served, taken)
  {
    hide RepliesBytes;
    var data := served[taken - 1].reply.data;
    if |data| == 0 {
      assert data + RepliesBytes(Replies(served[taken..])) == RepliesBytes(Replies(served[taken..]));
    }
  }

  lemma ReaderKeepsProtocol(s: State, step: Step)
    requires Inv(s) && ProtocolInv(s) && ReaderEnabled(s, step)
    ensures ProtocolInv(DoReader(s, step))
  {
    hide WriterInv, IssuedInv, PendingInv, AnswersInv, CarriedInv, SenderInv, MailInv, ReturnedInv, WaitingInv,
         SendsInv, FramedInv, ServedInv, ExactInv, RepliesBytes, SettleUnlink, AfterHeader;
    match step
    case ReadHeader => ReadHeaderKeepsIncoming(s);
    case LookupPending =>
      LookupFinds(s);
      LookupExact(s);
      LookupKeepsIncoming(s);
    case ReadPayload => PayloadKeepsIncoming(s);
    case SettleUnlinkCall => SettleExact(s);
    case _ =>
  }

  lemma ReplyKeepsProtocol(s: State, r: Reply, settles: Option<u32>)
    requires Inv(s) && WireInv(s) && ProtocolInv(s)
    requires ServerEnabled(s, ServerReply(r, settles)) && Conforms(s, ServerReply(r, settles))
    ensures ProtocolInv(DoServer(s, ServerReply(r, settles)))
  {
    ReplyKeepsServed(s, r, settles);
    ReplyKeepsIncoming(s.reader, s.Incoming(), s.served, s.taken, Served(r, settles));
    Associative(s.inp, s.wire, r.AsBytes());
    ReplyKeepsExact(s.calls, s.issued, s.shared, s.served, Resolved(s.reader, s.taken), Served(r, settles));
    hide Inv, WireInv, FramedInv, ServedInv, IncomingInv, ExactInv, Reply.AsBytes, Conforms;
  }

  lemma ReplyKeepsExact(calls: Calls, issued: map<u32, Chan>, sh: Shared, served: seq<Served>, n: nat, v: Served)
    requires ExactInv(calls, issued, sh, served, n)
    ensures ExactInv(calls, issued, sh, served + [v], n)
  {
    assert forall i | 0 <= i < n :: (served + [v])[i] == served[i];
    forall q: u32
      ensures Open(served + [v], n, q) <==> Open(served, n, q)
      ensures Unanswered(served + [v], n, q) <==> Unanswered(served, n, q)
    {
      if !Open(served, n, q) {
        var i :| 0 <= i < n && served[i].settles == Some(q);
        assert (served + [v])[i].settles == Some(q);
      }
      if !Unanswered(served, n, q) {
        var i :| 0 <= i < n && served[i].reply.UnlinkReply? && served[i].reply.unlink.seqnum == q;
        assert (served + [v])[i].reply.unlink.seqnum == q;
      }
    }
  }

  lemma ThreadKeepsProtocol(s: State, step: Step)
    requires Inv(s) && ProtocolInv(s) && ThreadEnabled(s, step) && Conforms(s, step)
    ensures ProtocolInv(DoThread(s, step))
  {
    hide Inv, FramedInv, ServedInv, IncomingInv, ExactInv, PostedGrows, Command.AsBytes, MayReply;
    var u := DoThread(s, step);
    StepKeepsFramed(s, step);
    ThreadKeepsPosted(s, step);
    ServedKept(s.calls, s.issued, s.served, u.calls, u.issued);
    ThreadKeepsExact(s, step);
    ThreadLeavesReader(s, step);
  }

  lemma ThreadLeavesReader(s: State, step: Step)
    requires ThreadEnabled(s, step)
    ensures var u := DoThread(s, step);
            u.reader == s.reader && u.Incoming() == s.Incoming() && u.served == s.served && u.taken == s.taken
  {
    hide Command.AsBytes;
  }

  /** How the replies are cut into pieces on their way does not matter. */
  lemma ArrivalKeepsProtocol(s: State, n: nat)
    requires ProtocolInv(s) && ServerEnabled(s, Arrive(n))
    ensures ProtocolInv(DoServer(s, Arrive(n)))
  {
    hide FramedInv, ServedInv, IncomingInv, ExactInv;
    assert s.wire[..n] + s.wire[n..] == s.wire;
    Associative(s.inp, s.wire[..n], s.wire[n..]);
  }

  lemma StepKeepsProtocol(s: State, step: Step)
    requires Inv(s) && WireInv(s) && ProtocolInv(s) && Enabled(s, step) && Conforms(s, step)
    ensures ProtocolInv(Do(s, step))
  {
    if ThreadEnabled(s, step) {
      ThreadKeepsProtocol(s, step);
    } else if ReaderEnabled(s, step) {
      ReaderKeepsProtocol(s, step);
    } else if step.ServerReply? {
      ReplyKeepsProtocol(s, step.reply, step.settles);
    } else {
      ArrivalKeepsProtocol(s, step.count);
    }
    hide Inv, WireInv, ProtocolInv, Conforms, ThreadEnabled, ReaderEnabled, DoThread, DoReader, DoServer;
  }

  /** Conforming runs keep the protocol invariant in every state. */
  lemma {:induction false} RunKeepsProtocol(s: State, steps: seq<Step>)
    requires Inv(s) && WireInv(s) && ProtocolInv(s) && ConformingRun(s, steps)
    ensures Run(s, steps).Some?
    ensures var u := Run(s, steps).value; Inv(u) && WireInv(u) && ProtocolInv(u)
    decreases |steps|
  {
    hide Inv, WireInv, ProtocolInv;
    if steps != [] {
      StepKeeps(s, steps[0]);
      StepKeepsWire(s, steps[0]);
      StepKeepsProtocol(s, steps[0]);
      RunKeepsProtocol(Do(s, steps[0]), steps[1..]);
    }
  }
}
