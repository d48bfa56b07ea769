/** Commands written by the client (usbip/src/client.rs, wire format helpers) and the decoder a server
    runs over them according to the USBIP_CMD_SUBMIT and USBIP_CMD_UNLINK tables of the protocol. */
module Commands {
  import opened Bytes
  import opened Protocol
  import opened Wire

  datatype Call =
    | SubmitCall(ep: u32, direction: Direction, transferFlags: u32, transferBufferLength: u32,
                 setup: Setup, data: seq<byte>, interval: u32)
    | UnlinkCall(target: u32)
  {
    /** The length the header announces is the length that follows it. */
    predicate Framed() {
      SubmitCall? && direction.Out? ==> |data| == transferBufferLength
    }
  }

  datatype Command = Command(seqnum: u32, devid: u32, call: Call) {
    /** What is on the wire: an IN submission never carries its buffer. */
    function OnWire(): Command {
      if call.SubmitCall? && call.direction.In? then this.(call := call.(data := [])) else this
    }

    function SubmitHeader(): CmdSubmitHeader
      requires call.SubmitCall?
    {
      CmdSubmitHeader(USBIP_CMD_SUBMIT, seqnum, devid, call.direction.Code(), call.ep, call.transferFlags,
                      call.transferBufferLength, 0, 0xffff_ffff, call.interval, call.setup)
    }

    function UnlinkHeader(): CmdUnlinkHeader
      requires call.UnlinkCall?
    {
      CmdUnlinkHeader(USBIP_CMD_UNLINK, seqnum, devid, 0, 0, call.target, Zeros(24))
    }

    function Header(): (bs: seq<byte>)
      ensures |bs| == HEADER_LEN
    {
      if call.SubmitCall? then SubmitHeader().AsBytes() else UnlinkHeader().AsBytes()
    }

    function Payload(): seq<byte> {
      if call.SubmitCall? && call.direction.Out? then call.data else []
    }

    function AsBytes(): (bs: seq<byte>)
      ensures |bs| >= HEADER_LEN
    {
      Header() + Payload()
    }
  }

  function AllBytes(cs: seq<Command>): seq<byte> {
    if cs == [] then [] else cs[0].AsBytes() + AllBytes(cs[1..])
  }

  function AllOnWire(cs: seq<Command>): (ws: seq<Command>)
    ensures |ws| == |cs|
    ensures forall i | 0 <= i < |cs| :: ws[i] == cs[i].OnWire()
  {
    seq(|cs|, i requires 0 <= i < |cs| => cs[i].OnWire())
  }

  // --- The server's decoder ---

  datatype Parsed = Incomplete | Malformed | Parsed(command: Command, rest: seq<byte>)

  function DecodeCommand(bs: seq<byte>): (p: Parsed)
    ensures p.Parsed? ==> |p.rest| + HEADER_LEN <= |bs|
  {
    if |bs| < HEADER_LEN then Incomplete
    else if U32At(bs, 0) == USBIP_CMD_SUBMIT then
      var h := CmdSubmitFrom(bs);
      if h.direction > 1 then Malformed
      else
        var direction := if h.direction == 1 then In else Out;
        var n: nat := if direction.Out? then h.transferBufferLength else 0;
        if |bs| < HEADER_LEN + n then Incomplete
        else Parsed(Command(h.seqnum, h.devid,
                            SubmitCall(h.ep, direction, h.transferFlags, h.transferBufferLength, h.setup,
                                       bs[HEADER_LEN..HEADER_LEN + n], h.interval)),
                    bs[HEADER_LEN + n..])
    else if U32At(bs, 0) == USBIP_CMD_UNLINK then
      var h := CmdUnlinkFrom(bs);
      Parsed(Command(h.seqnum, h.devid, UnlinkCall(h.unlinkSeqnum)), bs[HEADER_LEN..])
    else Malformed
  }

  datatype Decoded = Decoded(commands: seq<Command>, rest: seq<byte>)

  /** Decode as many whole commands as there are. */
  function DecodeCommands(bs: seq<byte>): Decoded
    decreases |bs|
  {
    match DecodeCommand(bs)
    case Parsed(c, rest) =>
      var d := DecodeCommands(rest);
      Decoded([c] + d.commands, d.rest)
    case _ => Decoded([], bs)
  }

  // --- Round trips ---

  lemma HeaderReadsBack(c: Command, rest: seq<byte>)
    ensures c.call.SubmitCall? ==> CmdSubmitFrom(c.Header() + rest) == c.SubmitHeader()
    ensures c.call.UnlinkCall? ==> CmdUnlinkFrom(c.Header() + rest) == c.UnlinkHeader()
    ensures U32At(c.Header() + rest, 0) == if c.call.SubmitCall? then USBIP_CMD_SUBMIT else USBIP_CMD_UNLINK
  {
    if c.call.SubmitCall? {
      CmdSubmitOverlay(c.SubmitHeader(), rest);
    } else {
      CmdUnlinkOverlay(c.UnlinkHeader(), rest);
    }
  }

  /** A submission on the wire, word by word: the code 1, then the fields, with no start frame and 0xffff_ffff for
      the number of packets; then the setup bytes and, going out only, the data. */
  lemma SubmitLayout(c: Command)
    requires c.call.SubmitCall?
    ensures var bs, call := c.AsBytes(), c.call;
            && U32At(bs, 0) == 1 && U32At(bs, 4) == c.seqnum && U32At(bs, 8) == c.devid
            && U32At(bs, 12) == (if call.direction == In then 1 else 0) && U32At(bs, 16) == call.ep
            && U32At(bs, 20) == call.transferFlags && U32At(bs, 24) == call.transferBufferLength
            && U32At(bs, 28) == 0 && U32At(bs, 32) == 0xffff_ffff && U32At(bs, 36) == call.interval
            && bs[40..48] == call.setup && bs[48..] == if call.direction == In then [] else call.data
  {
    HeaderReadsBack(c, c.Payload());
    hide U32At, Command.Header;
    assert c.AsBytes()[HEADER_LEN..] == c.Payload();
  }

  /** An unlink on the wire: the code 2, no direction and no endpoint, the number of the submission to cancel, and
      24 zero bytes. */
  lemma UnlinkLayout(c: Command)
    requires c.call.UnlinkCall?
    ensures var bs := c.AsBytes();
            && |bs| == 48 && U32At(bs, 0) == 2 && U32At(bs, 4) == c.seqnum && U32At(bs, 8) == c.devid
            && U32At(bs, 12) == 0 && U32At(bs, 16) == 0 && U32At(bs, 20) == c.call.target
            && forall i | 24 <= i < 48 :: bs[i] == 0
  {
    HeaderReadsBack(c, []);
    hide U32At, Command.Header;
    assert c.AsBytes() == c.Header() + [];
    var padding := c.UnlinkHeader().padding;
    assert forall i | 24 <= i < 48 :: c.AsBytes()[i] == padding[i - 24];
  }

  lemma SubmitRoundTrip(c: Command, rest: seq<byte>)
    requires c.call.SubmitCall?
    ensures DecodeCommand(c.AsBytes() + rest) == Parsed(c.OnWire(), rest) <==> c.call.Framed()
  {
    var header, body := c.Header(), c.Payload() + rest;
    Associative(header, c.Payload(), rest);
    HeaderReadsBack(c, body);
    var n: nat := if c.call.direction.Out? then c.call.transferBufferLength else 0;
    assert (header + body)[HEADER_LEN..] == body;
    if |body| >= n {
      assert (header + body)[HEADER_LEN..HEADER_LEN + n] == body[..n];
      assert (header + body)[HEADER_LEN + n..] == body[n..];
      if c.call.Framed() {
        assert body[..n] == c.Payload() && body[n..] == rest;
      }
    }
  }

  /** The server reads one command back, whatever follows it, exactly when its length is announced truthfully. */
  lemma CommandRoundTrip(c: Command, rest: seq<byte>)
    ensures DecodeCommand(c.AsBytes() + rest) == Parsed(c.OnWire(), rest) <==> c.call.Framed()
  {
    if c.call.SubmitCall? {
      SubmitRoundTrip(c, rest);
    } else {
      HeaderReadsBack(c, rest);
      assert c.AsBytes() == c.Header();
    }
  }

  /** A command cut short is never mistaken for a whole one. */
  lemma CutCommandIsIncomplete(c: Command, k: nat)
    requires c.call.Framed() && k < |c.AsBytes()|
    ensures DecodeCommand(c.AsBytes()[..k]) == Incomplete
  {
    if k >= HEADER_LEN {
      assert c.AsBytes()[..k] == c.Header() + c.Payload()[..k - HEADER_LEN];
      HeaderReadsBack(c, c.Payload()[..k - HEADER_LEN]);
    }
  }

  lemma {:induction false} AllBytesAppend(cs: seq<Command>, c: Command)
    ensures AllBytes(cs + [c]) == AllBytes(cs) + c.AsBytes()
  {
    if cs == [] {
      assert [c][1..] == [];
      assert cs + [c] == [c];
    } else {
      AllBytesAppend(cs[1..], c);
      assert (cs + [c])[1..] == cs[1..] + [c];
      Associative(cs[0].AsBytes(), AllBytes(cs[1..]), c.AsBytes());
    }
  }

  /** Framed commands are decoded one by one, and then whatever follows them. */
  lemma {:induction false} FramedCommandsDecode(cs: seq<Command>, tail: seq<byte>)
    requires forall c | c in cs :: c.call.Framed()
    ensures var d := DecodeCommands(tail);
            DecodeCommands(AllBytes(cs) + tail) == Decoded(AllOnWire(cs) + d.commands, d.rest)
  {
    hide DecodeCommand, Command.AsBytes, Command.OnWire, Call.Framed;
    if cs == [] {
      assert AllBytes(cs) + tail == tail;
      assert AllOnWire(cs) + DecodeCommands(tail).commands == DecodeCommands(tail).commands;
    } else {
      var after := AllBytes(cs[1..]) + tail;
      assert AllBytes(cs) + tail == cs[0].AsBytes() + after;
      CommandRoundTrip(cs[0], after);
      FramedCommandsDecode(cs[1..], tail);
      assert [cs[0].OnWire()] + AllOnWire(cs[1..]) == AllOnWire(cs);
      Associative([cs[0].OnWire()], AllOnWire(cs[1..]), DecodeCommands(tail).commands);
    }
  }

  /** Whole commands followed by a piece the decoder cannot complete decode to exactly those commands. */
  lemma CommandStreamRoundTrip(cs: seq<Command>, tail: seq<byte>)
    requires forall c | c in cs :: c.call.Framed()
    requires DecodeCommand(tail) == Incomplete
    ensures DecodeCommands(AllBytes(cs) + tail) == Decoded(AllOnWire(cs), tail)
  {
    FramedCommandsDecode(cs, tail);
    hide DecodeCommand;
    assert AllOnWire(cs) + [] == AllOnWire(cs);
  }

  /** The decoder only ever finds commands that announce their length truthfully. */
  lemma {:induction false} DecodedAreFramed(bs: seq<byte>)
    ensures forall i | 0 <= i < |DecodeCommands(bs).commands| :: DecodeCommands(bs).commands[i].call.Framed()
    decreases |bs|
  {
    hide U32At, CmdUnlinkFrom;
    match DecodeCommand(bs)
    case Parsed(c, rest) => DecodedAreFramed(rest);
    case _ =>
  }

  lemma FramedOnWire(c: Command)
    ensures c.OnWire().call.Framed() <==> c.call.Framed()
  {}

  /** Commands in a row are decoded in that row, whatever follows them, exactly when all announce their length
      truthfully. */
  lemma CommandsDecodeExactly(cs: seq<Command>, tail: seq<byte>)
    ensures AllOnWire(cs) <= DecodeCommands(AllBytes(cs) + tail).commands
       <==> forall i | 0 <= i < |cs| :: cs[i].call.Framed()
  {
    var ds := DecodeCommands(AllBytes(cs) + tail).commands;
    if forall i | 0 <= i < |cs| :: cs[i].call.Framed() {
      FramedCommandsDecode(cs, tail);
    }
    if AllOnWire(cs) <= ds {
      DecodedAreFramed(AllBytes(cs) + tail);
      forall i | 0 <= i < |cs|
        ensures cs[i].call.Framed()
      {
        assert ds[i] == cs[i].OnWire();
        FramedOnWire(cs[i]);
      }
    }
  }
}
