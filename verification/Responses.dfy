/** The maps shared by the two halves of a connection, what each lock region does to them, and the
    decoding of server responses, whose payload boundaries depend on those maps (usbip/src/client.rs). */
module Responses {
  import opened Bytes
  import opened Protocol
  import opened Wire
  import opened Commands

  datatype Shared = Shared(pending: map<u32, Direction>, unlinks: map<u32, u32>)

  /** Remember a call under its sequence number. */
  function Register(sh: Shared, seqnum: u32, call: Call): Shared {
    match call
    case SubmitCall(_, direction, _, _, _, _, _) => sh.(pending := sh.pending[seqnum := direction])
    case UnlinkCall(target) => sh.(unlinks := sh.unlinks[seqnum := target])
  }

  /** Forget a call whose command could not be written. */
  function Unregister(sh: Shared, seqnum: u32, call: Call): Shared {
    match call
    case SubmitCall(_, _, _, _, _, _, _) => sh.(pending := sh.pending - {seqnum})
    case UnlinkCall(_) => sh.(unlinks := sh.unlinks - {seqnum})
  }

  function Lookup(sh: Shared, seqnum: u32): (Option<Direction>, Shared) {
    (if seqnum in sh.pending then Some(sh.pending[seqnum]) else None, sh.(pending := sh.pending - {seqnum}))
  }

  /** The RET_UNLINK region: the command is settled, and -ECONNRESET also settles its target. */
  function SettleUnlink(sh: Shared, seqnum: u32, status: i32): Shared {
    if seqnum !in sh.unlinks then sh
    else
      Shared(if status == -ECONNRESET then sh.pending - {sh.unlinks[seqnum]} else sh.pending,
             sh.unlinks - {seqnum})
  }

  // --- Decoding one response ---

  datatype RecvError = UnexpectedEof | UnknownSeqnum(seqnum: u32) | UnknownCommand(command: u32)

  datatype Received = Response(response: UrbResponse) | Failure(error: RecvError)

  /** The outcome of one receive on the unread bytes `bs`, with the maps and the bytes left behind.
      A short read consumes whatever was there. */
  function Recv(bs: seq<byte>, sh: Shared): (Received, Shared, seq<byte>) {
    if |bs| < HEADER_LEN then (Failure(UnexpectedEof), sh, [])
    else
      var body := bs[HEADER_LEN..];
      if U32At(bs, 0) == USBIP_RET_SUBMIT then
        var h := RetSubmitFrom(bs);
        var (direction, sh') := Lookup(sh, h.seqnum);
        if direction.None? then (Failure(UnknownSeqnum(h.seqnum)), sh', body)
        else
          var n: nat := if direction.value.In? then h.actualLength else 0;
          if |body| < n then (Failure(UnexpectedEof), sh', [])
          else (Response(Submit(RetSubmit(h.seqnum, h.status, h.actualLength, body[..n], direction.value))),
                sh', body[n..])
      else if U32At(bs, 0) == USBIP_RET_UNLINK then
        var h := RetUnlinkFrom(bs);
        (Response(Unlink(h.seqnum, h.status)), SettleUnlink(sh, h.seqnum, h.status), body)
      else (Failure(UnknownCommand(U32At(bs, 0))), sh, body)
  }

  /** A receive that gets a whole header, word by word. The first word is the code. A 3 is the response to the
      submission remembered under the second word, with a signed status, the length announced, and that many bytes
      behind the header when it is IN; it settles that number. A 4 answers an unlink, and if its status is -104 it
      settles the target too. */
  lemma RecvReadsOff(bs: seq<byte>, sh: Shared)
    requires |bs| >= 48
    ensures var (received, sh', rest) := Recv(bs, sh);
            var code, q, status, length := U32At(bs, 0), U32At(bs, 4), U32At(bs, 20), U32At(bs, 24);
            if code == 3 then
              if q !in sh.pending then received == Failure(UnknownSeqnum(q)) && sh' == sh
              else
                var n: nat := if sh.pending[q] == In then length else 0;
                && sh' == Shared(sh.pending - {q}, sh.unlinks)
                && (|bs| < 48 + n ==> received == Failure(UnexpectedEof))
                && (|bs| >= 48 + n ==>
                      && received.Response? && received.response.Submit? && rest == bs[48 + n..]
                      && var ret := received.response.ret;
                         && ret.seqnum == q && ret.direction == sh.pending[q] && ret.actualLength == length
                         && (ret.status - status) % 0x1_0000_0000 == 0 && ret.data == bs[48..48 + n])
            else if code == 4 then
              && received.Response? && received.response.Unlink? && received.response.seqnum == q
              && (received.response.status - status) % 0x1_0000_0000 == 0 && rest == bs[48..]
              && sh'.unlinks == sh.unlinks - {q}
              && sh'.pending == (if q in sh.unlinks && received.response.status == -104
                                 then sh.pending - {sh.unlinks[q]} else sh.pending)
            else received == Failure(UnknownCommand(code)) && sh' == sh
  {
    hide U32At;
    var body := bs[48..];
    assert forall n: nat | n <= |body| :: body[..n] == bs[48..48 + n] && body[n..] == bs[48 + n..];
  }

  // --- What a server sends ---

  datatype Reply = SubmitReply(submit: RetSubmitHeader, data: seq<byte>) | UnlinkReply(unlink: RetUnlinkHeader) {
    predicate Valid() {
      match this
      case SubmitReply(h, _) => h.command == USBIP_RET_SUBMIT
      case UnlinkReply(h) => h.command == USBIP_RET_UNLINK
    }

    function AsBytes(): seq<byte> {
      match this
      case SubmitReply(h, data) => h.AsBytes() + data
      case UnlinkReply(h) => h.AsBytes()
    }

    /** The reply answers something remembered in `sh` and frames its payload by the remembered direction. */
    predicate Legal(sh: Shared) {
      Valid() &&
      (SubmitReply? ==>
         submit.seqnum in sh.pending &&
         |data| == if sh.pending[submit.seqnum].In? then submit.actualLength else 0)
    }

    function Decoded(sh: Shared): UrbResponse
      requires Legal(sh)
    {
      match this
      case SubmitReply(h, data) => Submit(RetSubmit(h.seqnum, h.status, h.actualLength, data, sh.pending[h.seqnum]))
      case UnlinkReply(h) => Unlink(h.seqnum, h.status)
    }

    function Settle(sh: Shared): Shared {
      match this
      case SubmitReply(h, _) => sh.(pending := sh.pending - {h.seqnum})
      case UnlinkReply(h) => SettleUnlink(sh, h.seqnum, h.status)
    }
  }

  function RepliesBytes(rs: seq<Reply>): seq<byte> {
    if rs == [] then [] else rs[0].AsBytes() + RepliesBytes(rs[1..])
  }

  /** Every reply is legal for the maps its predecessors leave. */
  predicate AllLegal(rs: seq<Reply>, sh: Shared) {
    rs == [] || (rs[0].Legal(sh) && AllLegal(rs[1..], rs[0].Settle(sh)))
  }

  function AllDecoded(rs: seq<Reply>, sh: Shared): seq<UrbResponse>
    requires AllLegal(rs, sh)
  {
    if rs == [] then [] else [rs[0].Decoded(sh)] + AllDecoded(rs[1..], rs[0].Settle(sh))
  }

  function SettleAll(rs: seq<Reply>, sh: Shared): Shared {
    if rs == [] then sh else SettleAll(rs[1..], rs[0].Settle(sh))
  }

  datatype Drained = Drained(responses: seq<UrbResponse>, shared: Shared, rest: seq<byte>)

  /** `n` receives in a row; None when one of them fails. */
  function RecvMany(n: nat, bs: seq<byte>, sh: Shared): Option<Drained> {
    if n == 0 then Some(Drained([], sh, bs))
    else
      var (r, sh', bs') := Recv(bs, sh);
      if r.Failure? then None
      else
        match RecvMany(n - 1, bs', sh')
        case None => None
        case Some(d) => Some(Drained([r.response] + d.responses, d.shared, d.rest))
  }

  // --- Round trips ---

  lemma ReplyHeaderReadsBack(r: Reply, rest: seq<byte>)
    requires r.Valid()
    ensures |r.AsBytes()| >= HEADER_LEN
    ensures U32At(r.AsBytes() + rest, 0) == if r.SubmitReply? then USBIP_RET_SUBMIT else USBIP_RET_UNLINK
    ensures r.SubmitReply? ==> RetSubmitFrom(r.AsBytes() + rest) == r.submit
    ensures r.UnlinkReply? ==> RetUnlinkFrom(r.AsBytes() + rest) == r.unlink
    ensures (r.AsBytes() + rest)[HEADER_LEN..] == (if r.SubmitReply? then r.data else []) + rest
  {
    match r
    case SubmitReply(h, data) =>
      assert r.AsBytes() + rest == h.AsBytes() + (data + rest);
      RetSubmitOverlay(h, data + rest);
    case UnlinkReply(h) =>
      RetUnlinkOverlay(h, rest);
  }

  /** A receive on an encoded legal reply returns that reply and leaves exactly what followed it. */
  lemma ReplyRoundTrip(r: Reply, rest: seq<byte>, sh: Shared)
    requires r.Legal(sh)
    ensures Recv(r.AsBytes() + rest, sh) == (Response(r.Decoded(sh)), r.Settle(sh), rest)
  {
    ReplyHeaderReadsBack(r, rest);
    if r.SubmitReply? {
      assert (r.data + rest)[..|r.data|] == r.data;
      assert (r.data + rest)[|r.data|..] == rest;
    }
  }

  lemma HeadersOfPrefix(bs: seq<byte>)
    requires |bs| >= HEADER_LEN
    ensures RetSubmitFrom(bs[..HEADER_LEN]) == RetSubmitFrom(bs) && RetSubmitFrom(bs).command == U32At(bs, 0)
    ensures RetUnlinkFrom(bs[..HEADER_LEN]) == RetUnlinkFrom(bs) && RetUnlinkFrom(bs).command == U32At(bs, 0)
  {
    assert bs[..HEADER_LEN][40..48] == bs[40..48] && bs[..HEADER_LEN][24..48] == bs[24..48];
  }

  /** Conversely, a receive succeeds only on the encoding of a legal reply: nothing else is accepted. */
  lemma RecvAcceptsOnlyReplies(bs: seq<byte>, sh: Shared) returns (r: Reply)
    requires Recv(bs, sh).0.Response?
    ensures r.Legal(sh) && bs == r.AsBytes() + Recv(bs, sh).2
    ensures Recv(bs, sh).0.response == r.Decoded(sh) && Recv(bs, sh).1 == r.Settle(sh)
  {
    var head, body := bs[..HEADER_LEN], bs[HEADER_LEN..];
    assert bs == head + body;
    HeadersOfPrefix(bs);
    hide U32At, RetSubmitFrom, RetUnlinkFrom, RetSubmitHeader.AsBytes, RetUnlinkHeader.AsBytes;
    if U32At(bs, 0) == USBIP_RET_SUBMIT {
      RetSubmitBytes(head);
      var h := RetSubmitFrom(bs);
      var n: nat := if sh.pending[h.seqnum].In? then h.actualLength else 0;
      r := SubmitReply(h, body[..n]);
      assert bs == r.AsBytes() + body[n..];
    } else {
      RetUnlinkBytes(head);
      r := UnlinkReply(RetUnlinkFrom(bs));
    }
  }

  /** Repeated receives return exactly the replies that were sent, consume exactly their bytes, and
      leave the maps as the replies settle them. */
  lemma {:induction false} ResponseStreamRoundTrip(rs: seq<Reply>, rest: seq<byte>, sh: Shared)
    requires AllLegal(rs, sh)
    ensures RecvMany(|rs|, RepliesBytes(rs) + rest, sh) == Some(Drained(AllDecoded(rs, sh), SettleAll(rs, sh), rest))
  {
    if rs == [] {
      assert RepliesBytes(rs) + rest == rest;
    } else {
      var after := RepliesBytes(rs[1..]) + rest;
      assert RepliesBytes(rs) + rest == rs[0].AsBytes() + after;
      ReplyRoundTrip(rs[0], after, sh);
      ResponseStreamRoundTrip(rs[1..], rest, rs[0].Settle(sh));
    }
  }

  /** Every successful run of receives is the decoding of some legal list of replies. */
  lemma {:induction false} RecvManyAcceptsOnlyReplies(n: nat, bs: seq<byte>, sh: Shared) returns (rs: seq<Reply>)
    requires RecvMany(n, bs, sh).Some?
    ensures |rs| == n && AllLegal(rs, sh)
    ensures bs == RepliesBytes(rs) + RecvMany(n, bs, sh).value.rest
    ensures RecvMany(n, bs, sh).value.responses == AllDecoded(rs, sh)
  {
    if n == 0 {
      rs := [];
    } else {
      var r := RecvAcceptsOnlyReplies(bs, sh);
      var (_, sh', bs') := Recv(bs, sh);
      var more := RecvManyAcceptsOnlyReplies(n - 1, bs', sh');
      rs := [r] + more;
      assert rs[1..] == more;
      Associative(r.AsBytes(), RepliesBytes(more), RecvMany(n, bs, sh).value.rest);
    }
  }

  lemma {:induction false} RepliesBytesAppend(rs: seq<Reply>, r: Reply)
    ensures RepliesBytes(rs + [r]) == RepliesBytes(rs) + r.AsBytes()
  {
    if rs == [] {
      assert [r][1..] == [];
      assert rs + [r] == [r];
    } else {
      RepliesBytesAppend(rs[1..], r);
      assert (rs + [r])[1..] == rs[1..] + [r];
      Associative(rs[0].AsBytes(), RepliesBytes(rs[1..]), r.AsBytes());
    }
  }
}
