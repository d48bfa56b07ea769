/** What the reader makes of the bytes of an arbitrary server: its responses are those of receives in a row on
    everything the server has sent, with every call's own direction remembered. */
module BridgeStream {
  import opened Bytes
  import opened Protocol
  import opened Wire
  import opened Commands
  import opened Responses
  import opened BridgeSystem
  import opened BridgeSafety
  import opened BridgeRuns
  import opened BridgeDelivery

  /** Everything the server sends in a schedule, in order. */
  function Heard(steps: seq<Step>): seq<byte> {
    if steps == [] then [] else SentBy(steps[0]) + Heard(steps[1..])
  }

  function SentBy(step: Step): seq<byte> {
    match step
    case ServerBytes(bs) => bs
    case ServerReply(r, _) => r.AsBytes()
    case _ => []
  }

  /** What has been read of the reply that is not complete yet. */
  function Partial(reader: Reader): seq<byte> {
    match reader
    case AtLookup(h) => h.AsBytes()
    case AtPayload(h, _) => h.AsBytes()
    case AtUnlink(h) => h.AsBytes()
    case _ => []
  }

  /** The replies read are, in order, the bytes heard but for what is in progress and unread. */
  ghost predicate BytesInv(heard: seq<byte>, rs: seq<Reply>, reader: Reader, incoming: seq<byte>) {
    && (forall i | 0 <= i < |rs| :: rs[i].Valid())
    && (reader.Live() ==> heard == RepliesBytes(rs) + (Partial(reader) + incoming))
    && RepliesBytes(rs) <= heard
    && (reader.AtLookup? || reader.AtPayload? ==> reader.submit.command == USBIP_RET_SUBMIT)
    && (reader.AtUnlink? ==> reader.unlink.command == USBIP_RET_UNLINK)
  }

  /** The answers recorded are what the RET_SUBMITs among them say, each for another submission. */
  ghost predicate RecordInv(rs: seq<Reply>, answers: map<u32, RetSubmit>) {
    && (forall i | 0 <= i < |rs| && rs[i].SubmitReply? ::
          rs[i].submit.seqnum in answers && Carries(rs[i], answers[rs[i].submit.seqnum]))
    && (forall q | q in answers :: exists i | 0 <= i < |rs| :: rs[i].SubmitReply? && rs[i].submit.seqnum == q)
    && (forall i, j | 0 <= i < j < |rs| && rs[i].SubmitReply? && rs[j].SubmitReply? ::
          rs[i].submit.seqnum != rs[j].submit.seqnum)
  }

  ghost predicate StreamInv(heard: seq<byte>, rs: seq<Reply>, s: State) {
    BytesInv(heard, rs, s.reader, s.Incoming()) && RecordInv(rs, s.answers)
  }

  // --- Steps ---

  lemma RecordReply(rs: seq<Reply>, answers: map<u32, RetSubmit>, r: Reply, ret: RetSubmit)
    requires RecordInv(rs, answers) && Carries(r, ret) && ret.seqnum !in answers
    ensures RecordInv(rs + [r], answers[ret.seqnum := ret])
  {
    var more := rs + [r];
    assert forall i | 0 <= i < |rs| :: more[i] == rs[i];
    assert more[|rs|] == r;
    forall q | q in answers
      ensures exists i | 0 <= i < |more| :: more[i].SubmitReply? && more[i].submit.seqnum == q
    {
      var i :| 0 <= i < |rs| && rs[i].SubmitReply? && rs[i].submit.seqnum == q;
      assert more[i].SubmitReply? && more[i].submit.seqnum == q;
    }
  }

  lemma RecordUnlink(rs: seq<Reply>, answers: map<u32, RetSubmit>, r: Reply)
    requires RecordInv(rs, answers) && r.UnlinkReply?
    ensures RecordInv(rs + [r], answers)
  {
    var more := rs + [r];
    forall q | q in answers
      ensures exists i | 0 <= i < |more| :: more[i].SubmitReply? && more[i].submit.seqnum == q
    {
      var i :| 0 <= i < |rs| && rs[i].SubmitReply? && rs[i].submit.seqnum == q;
      assert more[i].SubmitReply? && more[i].submit.seqnum == q;
    }
  }

  /** A reply is complete: its bytes were in progress or unread, and now they are read. */
  lemma ReplyComplete(heard: seq<byte>, rs: seq<Reply>, reader: Reader, incoming: seq<byte>, r: Reply,
                      reader': Reader, rest: seq<byte>)
    requires BytesInv(heard, rs, reader, incoming) && reader.Live() && r.Valid()
    requires Partial(reader) + incoming == r.AsBytes() + rest
    requires reader'.AtHeader? || reader'.AtDeliver?
    ensures BytesInv(heard, rs + [r], reader', rest)
  {
    hide Reply.AsBytes, RepliesBytes;
    RepliesBytesAppend(rs, r);
    Associative(RepliesBytes(rs), r.AsBytes(), rest);
    assert [] + rest == rest;
  }

  /** A header has been read whole, and is what its bytes say. */
  lemma HeaderRead(inp: seq<byte>, reader: Reader)
    requires |inp| >= HEADER_LEN && reader == AfterHeader(inp) && reader.Live()
    ensures Partial(reader) + inp[HEADER_LEN..] == inp
    ensures reader.AtLookup? || reader.AtUnlink?
    ensures reader.AtLookup? ==> reader.submit.command == USBIP_RET_SUBMIT
    ensures reader.AtUnlink? ==> reader.unlink.command == USBIP_RET_UNLINK
  {
    var head := inp[..HEADER_LEN];
    assert inp == head + inp[HEADER_LEN..];
    HeaderIsItsBytes(head, inp[HEADER_LEN..]);
    hide U32At;
  }

  lemma HeaderIsItsBytes(head: seq<byte>, rest: seq<byte>)
    requires |head| == HEADER_LEN
    ensures RetSubmitFrom(head + rest).AsBytes() == head && RetUnlinkFrom(head + rest).AsBytes() == head
  {
    RetSubmitBytes(head);
    RetUnlinkBytes(head);
    assert (head + rest)[40..48] == head[40..48] && (head + rest)[24..48] == head[24..48];
    assert RetSubmitFrom(head + rest) == RetSubmitFrom(head);
    assert RetUnlinkFrom(head + rest) == RetUnlinkFrom(head);
  }

  lemma ReadHeaderKeepsStream(s: State, heard: seq<byte>, rs: seq<Reply>)
    requires StreamInv(heard, rs, s) && ReaderEnabled(s, ReadHeader)
    ensures StreamInv(heard, rs, DoReader(s, ReadHeader))
  {
    hide RepliesBytes, RecordInv, AfterHeader;
    var reader, rest := AfterHeader(s.inp), s.inp[HEADER_LEN..];
    AfterHeaderPlaces(s.inp);
    if reader.Live() {
      HeaderRead(s.inp, reader);
      Associative(Partial(reader), rest, s.wire);
      assert [] + s.Incoming() == s.Incoming();
    }
  }

  lemma AfterHeaderPlaces(bs: seq<byte>)
    requires |bs| >= HEADER_LEN
    ensures var reader := AfterHeader(bs); reader.AtLookup? || reader.AtUnlink? || reader.Stopping?
  {
    hide U32At, RetSubmitFrom, RetUnlinkFrom;
  }

  lemma LookupGoes(s: State)
    requires ReaderEnabled(s, LookupPending)
    ensures var u, h := DoReader(s, LookupPending), s.reader.submit;
            && u.reader == AfterLookup(h, Lookup(s.shared, h.seqnum).0) && u.Incoming() == s.Incoming()
            && u.answers == Answered(s.answers, u.reader)
  {
    hide AfterLookup, Answered;
  }

  /** A response without data is complete once its submission has been looked up. */
  lemma LookupKeepsStream(s: State, heard: seq<byte>, rs: seq<Reply>) returns (rs': seq<Reply>)
    requires PendingInv(s.calls, s.issued, s.shared, s.answers, s.reader.Drains())
    requires StreamInv(heard, rs, s) && ReaderEnabled(s, LookupPending)
    ensures StreamInv(heard, rs', DoReader(s, LookupPending))
  {
    hide RepliesBytes, RecordInv, PendingInv, RetSubmitHeader.AsBytes, DoReader;
    LookupGoes(s);
    var h, u := s.reader.submit, DoReader(s, LookupPending);
    rs' := rs;
    if u.reader.AtDeliver? {
      RememberedIsUnanswered(s, h.seqnum);
      var r := SubmitReply(h, []);
      assert h.AsBytes() + [] == h.AsBytes();
      ReplyComplete(heard, rs, s.reader, s.Incoming(), r, u.reader, s.Incoming());
      RecordReply(rs, s.answers, r, u.reader.ret);
      rs' := rs + [r];
    }
  }

  lemma RememberedIsUnanswered(s: State, q: u32)
    requires PendingInv(s.calls, s.issued, s.shared, s.answers, s.reader.Drains()) && q in s.shared.pending
    ensures q !in s.answers
  {
    assert PendingOk(s.calls, s.issued, q, s.shared.pending[q], s.answers, s.reader.Drains());
  }

  lemma PayloadKeepsStream(s: State, heard: seq<byte>, rs: seq<Reply>) returns (rs': seq<Reply>)
    requires CarriedInv(s.calls, s.issued, s.shared.pending, s.answers, s.reader)
    requires StreamInv(heard, rs, s) && ReaderEnabled(s, ReadPayload)
    ensures StreamInv(heard, rs', DoReader(s, ReadPayload))
  {
    hide RepliesBytes, RecordInv, IsSubmit, RetSubmitHeader.AsBytes;
    var u, h, n: nat := DoReader(s, ReadPayload), s.reader.submit, s.reader.submit.actualLength;
    var r := SubmitReply(h, s.inp[..n]);
    assert s.Incoming() == s.inp[..n] + u.Incoming();
    Associative(h.AsBytes(), s.inp[..n], u.Incoming());
    ReplyComplete(heard, rs, s.reader, s.Incoming(), r, u.reader, u.Incoming());
    RecordReply(rs, s.answers, r, u.reader.ret);
    rs' := rs + [r];
  }

  lemma UnlinkKeepsStream(s: State, heard: seq<byte>, rs: seq<Reply>) returns (rs': seq<Reply>)
    requires StreamInv(heard, rs, s) && ReaderEnabled(s, SettleUnlinkCall)
    ensures StreamInv(heard, rs', DoReader(s, SettleUnlinkCall))
  {
    hide RepliesBytes, RecordInv, SettleUnlink, RetUnlinkHeader.AsBytes;
    var u, r := DoReader(s, SettleUnlinkCall), UnlinkReply(s.reader.unlink);
    ReplyComplete(heard, rs, s.reader, s.Incoming(), r, u.reader, s.Incoming());
    RecordUnlink(rs, s.answers, r);
    rs' := rs + [r];
  }

  lemma OtherReaderStepKeepsStream(s: State, step: Step, heard: seq<byte>, rs: seq<Reply>)
    requires StreamInv(heard, rs, s) && ReaderEnabled(s, step)
    requires !step.ReadHeader? && !step.LookupPending? && !step.ReadPayload? && !step.SettleUnlinkCall?
    ensures StreamInv(heard, rs, DoReader(s, step))
  {
    hide RepliesBytes, RecordInv;
  }

  lemma ReaderKeepsStream(s: State, step: Step, heard: seq<byte>, rs: seq<Reply>) returns (rs': seq<Reply>)
    requires Inv(s) && StreamInv(heard, rs, s) && ReaderEnabled(s, step)
    ensures StreamInv(heard, rs', DoReader(s, step))
  {
    hide StreamInv, DoReader, ReaderEnabled, WriterInv, IssuedInv, PendingInv, AnswersInv, CarriedInv, SenderInv,
         MailInv, ReturnedInv, WaitingInv, SendsInv;
    rs' := rs;
    match step
    case ReadHeader => ReadHeaderKeepsStream(s, heard, rs);
    case LookupPending => rs' := LookupKeepsStream(s, heard, rs);
    case ReadPayload => rs' := PayloadKeepsStream(s, heard, rs);
    case SettleUnlinkCall => rs' := UnlinkKeepsStream(s, heard, rs);
    case _ => OtherReaderStepKeepsStream(s, step, heard, rs);
  }

  lemma ThreadKeepsStream(s: State, step: Step, heard: seq<byte>, rs: seq<Reply>)
    requires StreamInv(heard, rs, s) && ThreadEnabled(s, step)
    ensures StreamInv(heard + SentBy(step), rs, DoThread(s, step))
  {
    hide BytesInv, RecordInv, Command.AsBytes;
    assert heard + [] == heard;
  }

  lemma ServerKeepsStream(s: State, step: Step, heard: seq<byte>, rs: seq<Reply>)
    requires StreamInv(heard, rs, s) && ServerEnabled(s, step)
    ensures StreamInv(heard + SentBy(step), rs, DoServer(s, step))
  {
    hide BytesInv, RecordInv, Reply.AsBytes;
    var u := DoServer(s, step);
    assert u.Incoming() == s.Incoming() + SentBy(step);
    MoreHeard(heard, rs, s.reader, s.Incoming(), SentBy(step));
  }

  lemma MoreHeard(heard: seq<byte>, rs: seq<Reply>, reader: Reader, incoming: seq<byte>, more: seq<byte>)
    requires BytesInv(heard, rs, reader, incoming)
    ensures BytesInv(heard + more, rs, reader, incoming + more)
  {
    hide RepliesBytes, Partial;
    Associative(Partial(reader), incoming, more);
    Associative(RepliesBytes(rs), Partial(reader) + incoming, more);
  }

  lemma StepKeepsStream(s: State, step: Step, heard: seq<byte>, rs: seq<Reply>) returns (rs': seq<Reply>)
    requires Inv(s) && StreamInv(heard, rs, s) && Enabled(s, step)
    ensures StreamInv(heard + SentBy(step), rs', Do(s, step))
  {
    hide Inv, StreamInv, ThreadEnabled, ReaderEnabled, ServerEnabled, DoThread, DoReader, DoServer;
    rs' := rs;
    if ThreadEnabled(s, step) {
      ThreadKeepsStream(s, step, heard, rs);
    } else if ReaderEnabled(s, step) {
      rs' := ReaderKeepsStream(s, step, heard, rs);
      ReaderIsSilent(s, step);
      assert heard + [] == heard;
    } else {
      ServerKeepsStream(s, step, heard, rs);
    }
  }

  lemma ReaderIsSilent(s: State, step: Step)
    requires ReaderEnabled(s, step)
    ensures SentBy(step) == []
  {}

  lemma {:induction false} RunKeepsStream(s: State, steps: seq<Step>, heard: seq<byte>, rs: seq<Reply>)
    returns (rs': seq<Reply>)
    requires Inv(s) && StreamInv(heard, rs, s) && Run(s, steps).Some?
    ensures StreamInv(heard + Heard(steps), rs', Run(s, steps).value)
    decreases |steps|
  {
    hide Inv, StreamInv, Enabled, Do, SentBy;
    if steps == [] {
      assert heard + [] == heard;
      rs' := rs;
    } else {
      StepKeeps(s, steps[0]);
      var next := StepKeepsStream(s, steps[0], heard, rs);
      rs' := RunKeepsStream(Do(s, steps[0]), steps[1..], heard + SentBy(steps[0]), next);
      Associative(heard, SentBy(steps[0]), Heard(steps[1..]));
    }
  }

  // --- Receives in a row ---

  /** The direction every answered call asked for. */
  function Asked(answers: map<u32, RetSubmit>): map<u32, Direction> {
    map q | q in answers :: answers[q].direction
  }

  ghost predicate AllFit(rs: seq<Reply>, d: map<u32, Direction>) {
    forall i | 0 <= i < |rs| :: rs[i].Legal(Shared(d, map[]))
  }

  ghost predicate Names(rs: seq<Reply>, q: u32) {
    exists i | 0 <= i < |rs| :: rs[i].SubmitReply? && rs[i].submit.seqnum == q
  }

  ghost predicate Distinct(rs: seq<Reply>) {
    forall i, j | 0 <= i < j < |rs| && rs[i].SubmitReply? && rs[j].SubmitReply? ::
      rs[i].submit.seqnum != rs[j].submit.seqnum
  }

  /** Replies to different submissions, each framed by its direction, are received one after another, and settle
      just those submissions. */
  lemma {:induction false} RepliesAreReceived(rs: seq<Reply>, d: map<u32, Direction>)
    requires AllFit(rs, d) && Distinct(rs) && (forall q | q in d :: Names(rs, q))
    ensures AllLegal(rs, Shared(d, map[])) && SettleAll(rs, Shared(d, map[])) == Shared(map[], map[])
    ensures |AllDecoded(rs, Shared(d, map[]))| == |rs|
    ensures forall i | 0 <= i < |rs| :: AllDecoded(rs, Shared(d, map[]))[i] == rs[i].Decoded(Shared(d, map[]))
  {
    if rs == [] {
      forall q
        ensures q !in d
      {
        assert !Names(rs, q);
      }
    } else {
      RestFits(rs, d);
      hide AllFit, Distinct, Names, Reply.Legal, Reply.Decoded;
      RepliesAreReceived(rs[1..], AfterFirst(rs, d));
      FirstIsLegal(rs, d);
    }
  }

  /** The directions still wanted after the first reply. */
  function AfterFirst(rs: seq<Reply>, d: map<u32, Direction>): map<u32, Direction>
    requires rs != []
  {
    if rs[0].SubmitReply? then d - {rs[0].submit.seqnum} else d
  }

  lemma FirstIsLegal(rs: seq<Reply>, d: map<u32, Direction>)
    requires rs != [] && AllFit(rs, d)
    ensures rs[0].Legal(Shared(d, map[])) && rs[0].Settle(Shared(d, map[])) == Shared(AfterFirst(rs, d), map[])
  {}

  lemma RestFits(rs: seq<Reply>, d: map<u32, Direction>)
    requires rs != [] && AllFit(rs, d) && Distinct(rs) && (forall q | q in d :: Names(rs, q))
    ensures AllFit(rs[1..], AfterFirst(rs, d)) && Distinct(rs[1..])
    ensures forall q | q in AfterFirst(rs, d) :: Names(rs[1..], q)
    ensures forall i | 0 < i < |rs| ::
              && rs[i].Legal(Shared(d, map[])) && rs[i].Legal(Shared(AfterFirst(rs, d), map[]))
              && rs[i].Decoded(Shared(AfterFirst(rs, d), map[])) == rs[i].Decoded(Shared(d, map[]))
  {
    var more := rs[1..];
    forall q | q in AfterFirst(rs, d)
      ensures Names(more, q)
    {
      assert Names(rs, q);
      var i :| 0 <= i < |rs| && rs[i].SubmitReply? && rs[i].submit.seqnum == q;
      assert more[i - 1] == rs[i];
    }
  }

  /** Against any server, whatever the schedule: receiving in a row everything the server has sent, with the
      directions the calls asked for remembered, gives exactly the responses the reader has recorded, each once,
      settles exactly those calls, and leaves the reply in progress and the unread bytes. */
  lemma ReaderReceivesInARow(devid: u32, steps: seq<Step>, s: State) returns (n: nat, d: Drained)
    requires Reached(devid, steps, s)
    ensures RecvMany(n, Heard(steps), Shared(Asked(s.answers), map[])) == Some(d) && d.shared == Shared(map[], map[])
    ensures forall i | 0 <= i < |d.responses| && d.responses[i].Submit? ::
              var q := d.responses[i].ret.seqnum; q in s.answers && d.responses[i].ret == s.answers[q]
    ensures forall q | q in s.answers :: Submit(s.answers[q]) in d.responses
    ensures forall i, j | 0 <= i < j < |d.responses| && d.responses[i].Submit? && d.responses[j].Submit? ::
              d.responses[i].ret.seqnum != d.responses[j].ret.seqnum
    ensures forall q | q in s.answers :: IsSubmit(s.calls, s.issued, q, s.answers[q].direction)
    ensures s.reader.Live() ==> d.rest == Partial(s.reader) + s.Incoming()
  {
    InitInv(devid);
    StartsSilent(devid);
    RunKeeps(Init(devid), steps);
    hide Run, Heard, Inv, StreamInv, Init;
    var rs := RunKeepsStream(Init(devid), steps, [], []);
    assert [] + Heard(steps) == Heard(steps);
    n, d := RecordedInARow(Heard(steps), rs, s);
  }

  lemma StartsSilent(devid: u32)
    ensures StreamInv([], [], Init(devid))
  {}

  lemma RecordedInARow(heard: seq<byte>, rs: seq<Reply>, s: State) returns (n: nat, d: Drained)
    requires Inv(s) && StreamInv(heard, rs, s)
    ensures RecvMany(n, heard, Shared(Asked(s.answers), map[])) == Some(d) && d.shared == Shared(map[], map[])
    ensures forall i | 0 <= i < |d.responses| && d.responses[i].Submit? ::
              var q := d.responses[i].ret.seqnum; q in s.answers && d.responses[i].ret == s.answers[q]
    ensures forall q | q in s.answers :: Submit(s.answers[q]) in d.responses
    ensures forall i, j | 0 <= i < j < |d.responses| && d.responses[i].Submit? && d.responses[j].Submit? ::
              d.responses[i].ret.seqnum != d.responses[j].ret.seqnum
    ensures forall q | q in s.answers :: IsSubmit(s.calls, s.issued, q, s.answers[q].direction)
    ensures s.reader.Live() ==> d.rest == Partial(s.reader) + s.Incoming()
  {
    hide WriterInv, IssuedInv, PendingInv, CarriedInv, SenderInv, MailInv, ReturnedInv, WaitingInv, SendsInv, IsSubmit,
         RepliesBytes, RecvMany, Reply.AsBytes;
    var asked, rest := Asked(s.answers), heard[|RepliesBytes(rs)|..];
    assert heard == RepliesBytes(rs) + rest;
    FitDirections(rs, s.answers);
    RepliesAreReceived(rs, asked);
    ResponseStreamRoundTrip(rs, rest, Shared(asked, map[]));
    n, d := |rs|, Drained(AllDecoded(rs, Shared(asked, map[])), SettleAll(rs, Shared(asked, map[])), rest);
    DecodedAreAnswers(rs, s.answers, d.responses);
  }

  lemma FitDirections(rs: seq<Reply>, answers: map<u32, RetSubmit>)
    requires RecordInv(rs, answers) && (forall i | 0 <= i < |rs| :: rs[i].Valid())
    requires forall q | q in answers :: answers[q].WellShaped()
    ensures AllFit(rs, Asked(answers)) && Distinct(rs) && forall q | q in Asked(answers) :: Names(rs, q)
  {}

  lemma DecodedAreAnswers(rs: seq<Reply>, answers: map<u32, RetSubmit>, responses: seq<UrbResponse>)
    requires RecordInv(rs, answers) && AllFit(rs, Asked(answers)) && |responses| == |rs|
    requires forall q | q in answers :: answers[q].seqnum == q
    requires forall i | 0 <= i < |rs| :: responses[i] == rs[i].Decoded(Shared(Asked(answers), map[]))
    ensures forall i | 0 <= i < |responses| && responses[i].Submit? ::
              var q := responses[i].ret.seqnum; q in answers && responses[i].ret == answers[q]
    ensures forall q | q in answers :: Submit(answers[q]) in responses
    ensures forall i, j | 0 <= i < j < |responses| && responses[i].Submit? && responses[j].Submit? ::
              responses[i].ret.seqnum != responses[j].ret.seqnum
  {
    forall q | q in answers
      ensures Submit(answers[q]) in responses
    {
      var i :| 0 <= i < |rs| && rs[i].SubmitReply? && rs[i].submit.seqnum == q;
      assert responses[i] == Submit(answers[q]);
    }
  }

  /** So what a call returns is what a receive on the server's bytes gives, whatever the server sends. */
  lemma CallersGetWhatIsReceived(devid: u32, steps: seq<Step>, s: State, ch: Chan) returns (n: nat, d: Drained)
    requires Reached(devid, steps, s)
    requires ch < |s.calls| && s.Pc(ch).Returned? && s.Pc(ch).result.Delivered?
    ensures RecvMany(n, Heard(steps), Shared(Asked(s.answers), map[])) == Some(d)
    ensures Submit(s.Pc(ch).result.ret) in d.responses
  {
    DeliveredIsRecorded(devid, steps, s, ch);
    n, d := ReaderReceivesInARow(devid, steps, s);
    hide *;
  }
}
