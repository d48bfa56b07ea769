/** Conforming runs: the reader stays aligned with the server's frames, the maps are an exact ledger of
    what is outstanding, and a response that was dropped is never delivered. */
module BridgeLedger {
  import opened Bytes
  import opened Commands
  import opened Responses
  import opened BridgeSystem
  import opened BridgeSafety
  import opened BridgeWire
  import opened BridgeAccount
  import opened BridgePumps
  import opened BridgeConforming
  import opened BridgeRuns

  lemma ConformingReachable(devid: u32, steps: seq<Step>, s: State)
    requires ConformingRun(Init(devid), steps) && Reached(devid, steps, s)
    ensures Inv(s) && WireInv(s) && ProtocolInv(s)
  {
    InitialState(devid);
    hide Inv, WireInv, BookInv, PumpInv, ProtocolInv, Init;
    RunKeepsProtocol(Init(devid), steps);
  }

  // --- Alignment ---

  /** Every submission the server has received whole and no reply has settled is remembered, with the
      direction it was sent with; and between replies the unread bytes start at a reply. */
  lemma ReaderAlignment(devid: u32, steps: seq<Step>, s: State)
    requires ConformingRun(Init(devid), steps) && Reached(devid, steps, s)
    ensures s.taken <= |s.served| && Resolved(s.reader, s.taken) <= |s.served|
    ensures forall c | c in DecodeCommands(s.sent).commands && c.call.SubmitCall? &&
                       Open(s.served, Resolved(s.reader, s.taken), c.seqnum) ::
              c.seqnum in s.shared.pending && s.shared.pending[c.seqnum] == c.call.direction
    ensures s.reader.AtHeader? ==> s.Incoming() == RepliesBytes(Replies(s.served[s.taken..]))
  {
    ConformingReachable(devid, steps, s);
    hide Reached, ConformingRun, DecodeCommands, RepliesBytes;
    forall c | c in DecodeCommands(s.sent).commands && c.call.SubmitCall? &&
               Open(s.served, Resolved(s.reader, s.taken), c.seqnum)
      ensures c.seqnum in s.shared.pending && s.shared.pending[c.seqnum] == c.call.direction
    {
      SeenIsRemembered(s, c);
    }
    hide Inv, WireInv, FramedInv, ServedInv;
  }

  lemma SeenIsRemembered(s: State, c: Command)
    requires Inv(s) && WireInv(s) && ProtocolInv(s) && c in DecodeCommands(s.sent).commands && c.call.SubmitCall?
    requires Open(s.served, Resolved(s.reader, s.taken), c.seqnum)
    ensures c.seqnum in s.shared.pending && s.shared.pending[c.seqnum] == c.call.direction
  {
    SeenIsPosted(s, c);
    hide WireInv, DecodeCommands, WriterInv, IssuedInv, AnswersInv, CarriedInv, SenderInv, MailInv, ReturnedInv,
         WaitingInv, SendsInv, FramedInv, ServedInv, IncomingInv;
    assert AliveSubmit(s.calls, s.issued, c.seqnum);
    assert PendingOk(s.calls, s.issued, c.seqnum, s.shared.pending[c.seqnum], s.answers, s.reader.Drains());
  }

  /** The only thing that can stop the reader is its socket: it never meets an unknown command, nor an
      answer to a submission it does not know. */
  lemma ReaderNeverMisreads(devid: u32, steps: seq<Step>, s: State, step: Step)
    requires ConformingRun(Init(devid), steps) && Reached(devid, steps, s)
    requires s.reader.Live() && ReaderEnabled(s, step) && !step.ReadFails?
    ensures DoReader(s, step).reader.Live()
  {
    ConformingReachable(devid, steps, s);
    NeverMisreads(s, step);
  }

  lemma NeverMisreads(s: State, step: Step)
    requires Inv(s) && ProtocolInv(s) && s.reader.Live() && ReaderEnabled(s, step) && !step.ReadFails?
    ensures DoReader(s, step).reader.Live()
  {
    hide WriterInv, IssuedInv, AnswersInv, CarriedInv, SenderInv, MailInv, ReturnedInv, WaitingInv, SendsInv,
         PendingInv, FramedInv, ServedInv, ExactInv, IncomingInv, RepliesBytes, AfterHeader, SettleUnlink;
    match step
    case ReadHeader => ReadHeaderKeepsIncoming(s);
    case LookupPending => LookupKeepsIncoming(s);
    case _ =>
  }

  // --- The ledger ---

  ghost function Submitted(s: State): set<u32> {
    set q | q in s.issued && Registered(s.calls, s.issued, q) && s.calls[s.issued[q]].call.SubmitCall?
  }

  ghost function WriteFailed(s: State): set<u32> {
    set q | q in Submitted(s) && q in s.issued && s.issued[q] < |s.calls| && s.calls[s.issued[q]].pc.RolledBack()
  }

  /** Some reply that has had its effect settles `q`, by answering it or by cancelling it. */
  ghost predicate SettledBy(served: seq<Served>, n: nat, q: u32, answered: bool) {
    exists i | 0 <= i < n && i < |served| :: served[i].settles == Some(q) && served[i].reply.SubmitReply? == answered
  }

  ghost function Settled(s: State, answered: bool): set<u32> {
    set q | q in s.issued && SettledBy(s.served, Resolved(s.reader, s.taken), q, answered)
  }

  /** Every submission that was registered is in exactly one of: remembered, answered, cancelled by a
      RET_UNLINK with -ECONNRESET, or withdrawn because its write failed. */
  lemma LedgerIsExact(devid: u32, steps: seq<Step>, s: State)
    requires ConformingRun(Init(devid), steps) && Reached(devid, steps, s)
    ensures Submitted(s) == s.shared.pending.Keys + Settled(s, true) + Settled(s, false) + WriteFailed(s)
    ensures s.shared.pending.Keys !! Settled(s, true) !! Settled(s, false) !! WriteFailed(s)
  {
    ConformingReachable(devid, steps, s);
    hide Reached, ConformingRun, WriterInv, AnswersInv, CarriedInv, SenderInv, MailInv, ReturnedInv,
         WaitingInv, SendsInv, WireInv, FramedInv, IncomingInv, PendingInv;
    var n := Resolved(s.reader, s.taken);
    forall q
      ensures q in s.shared.pending <==>
                q in Submitted(s) && q !in WriteFailed(s) && q !in Settled(s, true) && q !in Settled(s, false)
      ensures q in Settled(s, true) ==> q !in Settled(s, false)
      ensures q in Settled(s, true) || q in Settled(s, false) ==> q in Submitted(s) && q !in WriteFailed(s)
    {
      OneEntry(s, q);
    }
    hide Inv, ProtocolInv, Submitted, WriteFailed, Settled;
    InSubmitted(s);
    Partition(Submitted(s), s.shared.pending.Keys, Settled(s, true), Settled(s, false), WriteFailed(s));
  }

  lemma Partition<T>(all: set<T>, kept: set<T>, a: set<T>, b: set<T>, c: set<T>)
    requires c <= all && (forall q :: q in kept <==> q in all && q !in c && q !in a && q !in b)
    requires (forall q | q in a :: q !in b) && (forall q | q in a || q in b :: q in all && q !in c)
    ensures all == kept + a + b + c && kept !! a !! b !! c
  {}

  lemma InSubmitted(s: State)
    ensures WriteFailed(s) <= Submitted(s)
  {}

  lemma OneEntry(s: State, q: u32)
    requires IssuedInv(s.calls, s.issued, s.next) && ServedInv(s.calls, s.issued, s.served)
    requires ExactInv(s.calls, s.issued, s.shared, s.served, Resolved(s.reader, s.taken))
    ensures q in s.shared.pending <==>
              q in Submitted(s) && q !in WriteFailed(s) && q !in Settled(s, true) && q !in Settled(s, false)
    ensures q in Settled(s, true) ==> q !in Settled(s, false)
    ensures q in Settled(s, true) || q in Settled(s, false) ==> q in Submitted(s) && q !in WriteFailed(s)
  {
    var n := Resolved(s.reader, s.taken);
    forall i | 0 <= i < n && s.served[i].settles == Some(q)
      ensures Posted(s.calls, s.issued, q) && s.calls[s.issued[q]].call.SubmitCall?
    {
      assert ServedOk(s.calls, s.issued, s.served[i]);
    }
    OpenOrSettled(s.served, n, q);
    assert AliveSubmit(s.calls, s.issued, q) <==> q in Submitted(s) && q !in WriteFailed(s);
  }

  lemma OpenOrSettled(served: seq<Served>, n: nat, q: u32)
    requires n <= |served|
    ensures Open(served, n, q) <==> !SettledBy(served, n, q, true) && !SettledBy(served, n, q, false)
  {
    if !Open(served, n, q) {
      var i :| 0 <= i < n && served[i].settles == Some(q);
      assert SettledBy(served, n, q, served[i].reply.SubmitReply?);
    }
  }

  /** `unlinks` holds exactly the unlink commands that are outstanding; its keys and those of `pending`
      are disjoint, and all are below the next number. */
  lemma UnlinksAreExact(devid: u32, steps: seq<Step>, s: State)
    requires ConformingRun(Init(devid), steps) && Reached(devid, steps, s)
    ensures Resolved(s.reader, s.taken) <= |s.served|
    ensures forall u :: u in s.shared.unlinks <==>
              AliveUnlink(s.calls, s.issued, u) && Unanswered(s.served, Resolved(s.reader, s.taken), u)
    ensures forall u | u in s.shared.unlinks :: IsUnlink(s.calls, s.issued, u, s.shared.unlinks[u])
    ensures s.shared.unlinks.Keys !! s.shared.pending.Keys
    ensures forall q | q in s.shared.unlinks || q in s.shared.pending :: q < s.next
  {
    ConformingReachable(devid, steps, s);
    hide Reached, ConformingRun, WriterInv, AnswersInv, CarriedInv, SenderInv, MailInv, ReturnedInv,
         WaitingInv, SendsInv, WireInv, FramedInv, IncomingInv, ServedInv;
    forall q | q in s.shared.pending
      ensures q !in s.shared.unlinks && q < s.next
    {
      assert PendingOk(s.calls, s.issued, q, s.shared.pending[q], s.answers, s.reader.Drains());
    }
  }

  // --- Lost responses ---

  /** A response that was dropped is never delivered: if its caller returns at all, it is with an error. */
  lemma LostIsNeverDelivered(devid: u32, steps: seq<Step>, s: State, ch: Chan)
    requires Reached(devid, steps, s) && ch < |s.calls| && s.Pc(ch).HasSeqnum() && s.Pc(ch).seqnum in s.lost
    ensures s.Pc(ch).Returned? ==> !s.Pc(ch).result.Delivered?
    ensures ch in s.mail ==> !s.mail[ch].Delivered?
  {
    Reachable(devid, steps, s);
    hide Reached, WireInv, PumpInv, WriterInv, PendingInv, AnswersInv, CarriedInv, SenderInv, MailInv, ReturnedInv,
         WaitingInv, SendsInv, ThreadInv, AccountInv, CancelledInv, UnsentInv;
    assert Undelivered(s.calls[s.issued[s.Pc(ch).seqnum]].pc, ch, s.mail);
  }
}
